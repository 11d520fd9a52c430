# Verified cores of an xv6-riscv kernel

This project models the parts of the system whose correctness is hardest to see from the code, and proves what
each of them is for. It covers an xv6-riscv kernel with lazy `sbrk` and a demand-filled `mapzero` region, and
three pieces of its user library. `dafny verify dfyconfig.toml` checks everything.

| file | models | main results |
|---|---|---|
| `Blocks.dfy` | disk blocks as bytes, little-endian words and bits | a stored word or bit reads back and disturbs no other |
| `Log.dfy` | the redo log: header, commit, recovery, one disk write at a time | crash atomicity, through any number of crashes during recovery |
| `LogProtocol.dfy` | every interleaving of `begin_op`, `log_write`, `end_op`, commit, crash and recovery | only whole operations survive; exactly when `log_write` panics |
| `Fs.dfy` | block bitmap, inode block map, `readi`, `writei`, `itrunc`, `filewrite` | each block has one owner; files are byte strings; every transaction fits the log |
| `FsLimits.dfy` | a full disk with a few free blocks far apart | the bound on what a write logs is reached, and one block more exceeds a transaction |
| `Vm.dfy` | Sv39 tables, frames, faults, `sbrk`, `mapzero`, fork and teardown | the tree is a flat map; every frame is in one place; exactly which frames a run leaks |
| `LazyHeap.dfy` | user programs on lazy and on eager memory | lazy equals eager for every run |
| `Umalloc.dfy` | the K&R allocator with its 32-bit sizes | an ordered, coalesced ring; blocks never overlap; exactly when no unit is lost |
| `SleepWakeup.dfy` | `sleep`, `wakeup`, `yield`, `kkill` and the scheduler on many CPUs | no lost wakeup |
| `SleepLock.dfy` | sleep locks as clients of the above | mutual exclusion, no stuck waiter |
| `ExitWait.dfy` | `kfork`, `kexit`, `reparent`, `kwait` | living parents, noticed zombies, one reap each |
| `Bio.dfy` | the buffer cache | one buffer per block, LRU order, reads agree with a flat array of blocks |
| `Virtio.dfy` | the disk driver's descriptors and rings | disjoint chains, completions reach their buffer, 16-bit wraparound |
| `Pipe.dfy` | the pipe's ring buffer | first in, first out through every interleaving and counter wraparound; what each call stores and returns |
| `Sh.dfy` | the shell's tokenizer, parser and `nulterminate` | rendering and parsing round trip; terminated words |
| `Grep.dfy` | the pattern matcher | sound and complete against a declarative meaning |

How the parts are modelled:

- Code that updates fields in place is a class whose methods carry the code's loops. Each method is proved against
  a function or relation on the old state, and lemmas prove what the source promises about those.
- Concurrent code is a state machine. Each step is one lock acquisition or release together with the field updates
  next to it. A theorem about reachable states covers every interleaving.
- Exclusive ownership of disk blocks and of physical frames uses a ghost map from each block or frame to the one
  place that names it. A ghost set holds what is just allocated or about to be freed.
- A panic is a state the model must not reach: a precondition of the method that would panic, or a dead branch.
- Page tables follow section 4.4 (Sv39) of the RISC-V Privileged Architecture manual, version 20211203; the disk
  rings follow sections 2.6 and 5.2 of VIRTIO 1.1.

Four things in the code differ from what its comments or callers suggest, and are stated as they are:

- `log_write` tests for a full log before it looks for absorption. An operation within its budget can panic when it
  rewrites a block it has already logged (`LogProtocol.LogWritePanic`, `LogProtocol.AbsorptionCanPanic`).
- `proc_freepagetable` unmaps two fixed addresses without freeing the frames. Exit conserves frames exactly when
  neither page is mapped, for instance when the size is at most 0x50000000 (`Vm.LeakedExact`,
  `Vm.SmallLeaksNothing`, `Vm.Kernel.Run`). `Vm.LeakyRun` is a run that loses a frame.
- The allocator keeps sizes in 32 bits. `free` loses no unit exactly when the block and the free blocks it touches
  add up to less than 2^32 units (`Umalloc.FreeSound`), for instance while all memory obtained is less than that.
  `Umalloc.WrapRun` is a run that loses memory.
- `morecore` passes an unsigned byte count to `sbrk`, which takes an int. The two agree exactly when the rounded
  request is at most `INT_MAX` bytes (`Umalloc.SbrkArgument`).

## Model

| member | source | states |
|---|---|---|
| Blocks.GetPutWord | kernel/log.c:104-115 | storing one 32-bit word of a block reads back and changes no other word |
| Blocks.BitOnly | kernel/fs.c:74-103 | setting or clearing a bitmap bit changes that bit and no other |
| Log.HeadRoundTrip | kernel/log.c:87-115 | reading a header returns exactly the block list that was written, whatever the buffer held before |
| Log.AbsorbPending | kernel/log.c:224-234 | absorption keeps the logged block numbers distinct and the transaction well formed |
| Log.RecoveryPrefix | kernel/log.c:66-124 | after any prefix of recovery's writes the disk still stores the same contents |
| Log.RecoveryHome | kernel/log.c:117-124 | a recovery that completes brings every block home and empties the log |
| Log.CommitPrefix | kernel/log.c:179-204 | after any prefix of commit's writes the disk stores the old contents before the header write and the new ones from it on |
| Log.CommittedHome | kernel/log.c:194-204 | a completed commit leaves the transaction at home and the log empty |
| Log.RebootStores | kernel/log.c:117-124 | any number of interrupted recoveries followed by a complete one restores exactly what the disk stored |
| Log.CrashAtomicity | kernel/log.c:66-204 | commit cut off at any write, then recoveries cut off at any writes: the homes end as before the transaction or as after it, and as after it exactly when the header write happened |
| Log.CommitMeets | kernel/log.c:179-204 | disk and cache go through commit together and come out equal |
| Log.LogDevice.constructor | kernel/log.c:53-63 | a device whose cache agrees with its disk and whose log list is empty |
| Log.LogDevice.Bwrite | kernel/bio.c:106-112 | one block write is one step of the recorded trace of disk states |
| Log.LogDevice.WriteLog | kernel/log.c:179-192 | the cached blocks are copied to the log one write at a time, in order |
| Log.LogDevice.WriteHead | kernel/log.c:103-115 | the header block gets the list and nothing else changes |
| Log.LogDevice.InstallOne | kernel/log.c:70-83 | one logged block is copied home in one write |
| Log.LogDevice.InstallTrans | kernel/log.c:66-84 | the logged blocks are copied home one write at a time, in order |
| Log.LogDevice.Commit | kernel/log.c:194-204 | the disk states it passes through are exactly those of the crash theorem, and it ends with the cache's contents at home |
| Log.LogDevice.ReadHead | kernel/log.c:87-98 | the list in memory is the one in the header block |
| Log.LogDevice.RecoverFromLog | kernel/log.c:117-124 | the disk states it passes through are exactly those of the recovery theorem |
| LogProtocol.StepInv | kernel/log.c:127-236 | every step of every process, a crash included, keeps the protocol's invariant |
| LogProtocol.ReachesInv | kernel/log.c:127-236 | the invariant holds after any run from a clean disk |
| LogProtocol.DurableWholeOperations | kernel/log.c:127-204 | at every moment of every run the recovered disk is the boot contents with a prefix of the updates applied, and that prefix contains no part of an operation |
| LogProtocol.CommitTakesAll | kernel/log.c:147-204 | the committed prefix grows only to take in every update so far, and only with no operation outstanding; none is outstanding during a commit |
| LogProtocol.LogWritePanic | kernel/log.c:215-236 | an operation within its budget panics if and only if it rewrites an already logged block while the log is full |
| LogProtocol.AbsorptionCanPanic | kernel/log.c:221-229 | such a state is reachable: three operations of ten blocks each fill the log |
| Fs.MarkOnly | kernel/fs.c:66-106 | allocating or freeing a block changes its bit and no other |
| Fs.AllocOwned | kernel/fs.c:66-88 | a block found free has no owner, and allocating it keeps every ownership |
| Fs.ReleaseOwned | kernel/fs.c:92-106 | freeing a block that no slot names keeps every ownership |
| Fs.AttachOwned | kernel/fs.c:405-444 | storing a fresh block in an empty slot makes that slot its one owner |
| Fs.DetachDirect | kernel/fs.c:454-459 | clearing a direct slot takes ownership of that block away and of no other |
| Fs.DetachIndirect | kernel/fs.c:461-471 | clearing the indirect pointer takes away the indirect block and everything in it |
| Fs.PatchFile | kernel/fs.c:540-551 | copying bytes into the block at an offset changes those bytes of that file and no byte of any other |
| Fs.WriteIsOverlay | kernel/fs.c:528-562 | as an operation on strings, a write replaces that part of the file and leaves every other file alone |
| Fs.ChunkFits | kernel/file.c:149-153 | the bound proved for `writei` stays within a transaction at every offset if and only if a chunk has at most 3 blocks; `FsLimits` shows that the bound is reached |
| Fs.WithinTransaction | kernel/file.c:149-165 | the bound for one chunk never exceeds MAXOPBLOCKS |
| Fs.FreedExactly | kernel/fs.c:448-476 | after truncation a block is in use exactly if it was and did not belong to the inode |
| Fs.FileSystem.constructor | kernel/fs.c:30-49 | a mounted image in which every data block in use has one owner |
| Fs.FileSystem.Balloc | kernel/fs.c:66-88 | the lowest free block, marked and zeroed; 0 exactly when every block is in use |
| Fs.FileSystem.Bfree | kernel/fs.c:92-106 | clears the bit of a block in use and changes nothing else |
| Fs.FileSystem.Store | kernel/fs.c:416-436 | a block number stored in a slot; the indirect block is logged if it is the one that changed |
| Fs.FileSystem.AllocInto | kernel/fs.c:411-440 | an empty slot gets the lowest free block, logged with its bitmap block; no file's contents and no other slot change |
| Fs.FileSystem.BmapDirect | kernel/fs.c:411-419 | the direct half of `bmap` |
| Fs.FileSystem.IndirectBlock | kernel/fs.c:424-429 | the indirect block's address, allocated if needed; no block of any file moves |
| Fs.FileSystem.BmapIndirect | kernel/fs.c:420-441 | the indirect half of `bmap` |
| Fs.FileSystem.Bmap | kernel/fs.c:405-444 | the block's address, allocated if needed; no file's contents change, no other block moves, 0 only if the disk is full; every allocation is the lowest free block and is logged with its bitmap block |
| Fs.FileSystem.WriteChunk | kernel/fs.c:539-551 | one round: exactly the copied bytes change, on success, on a copy fault and on a full disk; what is logged, which after a copy fault does not include the block's new bytes |
| Fs.FileSystem.CopyRound | kernel/fs.c:539-551 | one round as progress on the whole write |
| Fs.FileSystem.CopyIn | kernel/fs.c:539-551 | the loop: what arrived is in the file, how many blocks it can have logged, and that every block allocated or written is logged |
| Fs.FileSystem.WriteI | kernel/fs.c:528-562 | bytes, size and other files after a write, with every failure exit; bounds on what is logged from above and below |
| Fs.FileSystem.ReadI | kernel/fs.c:494-521 | exactly the requested slice cut off at the end of the file, or -1 exactly if it does not fit |
| Fs.FileSystem.FileWrite | kernel/file.c:135-179 | the whole write in transactions, none of which logs more than MAXOPBLOCKS blocks; the return value and the new offset |
| Fs.FileSystem.TruncDirect | kernel/fs.c:454-459 | the direct half frees exactly the direct blocks |
| Fs.FileSystem.TruncIndirect | kernel/fs.c:461-471 | the indirect half frees every entry and the indirect block |
| Fs.FileSystem.Itrunc | kernel/fs.c:448-476 | frees exactly the inode's blocks, each in use until then; every other file is as it was |
| FsLimits.ImageOwned | kernel/fs.c:66-106 | a disk of 40960 blocks, all but twenty in use, on which every block in use has one owner |
| FsLimits.LogsTen | kernel/file.c:149-165 | on it one `writei` of the largest chunk, not aligned, logs exactly MAXOPBLOCKS blocks |
| FsLimits.LogsEleven | kernel/fs.c:528-562 | on it an aligned `writei` of four blocks logs one block more than that |
| Vm.PteFields | kernel/riscv.h:364-369 | frame and flags of an entry read back |
| Vm.Indices | kernel/riscv.h:371-374 | the three 9-bit indices determine the page number |
| Vm.SetLeaf | kernel/vm.c:97-115 | writing one last-level entry is one update of the flat map; every other page of every process keeps its entry |
| Vm.AttachedOwned | kernel/vm.c:103-113 | hooking in an empty table keeps every mapping and every frame in one place |
| Vm.MapOwned | kernel/vm.c:162-171 | mapping a frame in hand gives it exactly one use |
| Vm.UnmapOwned | kernel/vm.c:201-211 | unmapping returns the frame to the caller's hands |
| Vm.GivenBack | kernel/proc.c:162-191 | what a process gives up is what the free list gains, less what is leaked |
| Vm.LeakedExact | kernel/proc.c:229-247 | exit leaks nothing if and only if neither of the two fixed addresses is mapped |
| Vm.SmallLeaksNothing | kernel/proc.c:229-247 | a process of size at most 0x50000000 leaks nothing |
| Vm.LeakyTrace | kernel/proc.c:229-247 | after growth past 0x50000000 and a fault there, exit leaks a frame |
| Vm.LeakyRun | kernel/proc.c:229-247 | such a run on a fresh machine: a frame is lost |
| Vm.Kernel.constructor | kernel/kalloc.c:26-41 | the free list holds exactly the frames of RAM |
| Vm.Kernel.Kalloc | kernel/kalloc.c:68-82 | the head of the free list, 0 exactly if it is empty; no mapping changes |
| Vm.Kernel.Kfree | kernel/kalloc.c:46-64 | a frame in hand goes to the head of the free list; no mapping changes |
| Vm.Kernel.Walk | kernel/vm.c:97-115 | the last-level table of a page; all mappings and contents are unchanged even when it fails after making a table |
| Vm.Kernel.MapPages | kernel/vm.c:145-174 | the first k pages of the run are inserted in the flat map, all of them exactly if it succeeds, and nothing else changes |
| Vm.Kernel.UvmCreate | kernel/vm.c:178-187 | an empty table, or nothing if there is no memory |
| Vm.Kernel.UvmUnmap | kernel/vm.c:192-212 | the run of pages is deleted from the flat map, nothing else changes; the frames are freed or in hand |
| Vm.Kernel.UvmAlloc | kernel/vm.c:216-241 | zeroed pages with the given permissions, or all undone exactly if a frame was refused |
| Vm.Kernel.UvmDealloc | kernel/vm.c:246-258 | deletes the pages between the two sizes and no other |
| Vm.Kernel.FreeWalk | kernel/vm.c:262-279 | frees the table and every table below it, each once, and meets no leaf |
| Vm.Kernel.UvmCopy | kernel/vm.c:296-324 | each mapped page copied with its flags, or all undone exactly if a frame was refused |
| Vm.Kernel.VmFault | kernel/vm.c:452-473 | maps one zeroed page below the size; every refusal has a reason |
| Vm.Kernel.IsMapped | kernel/vm.c:475-486 | true exactly if the flat map has the page |
| Vm.Kernel.ServeFault | kernel/trap.c:75-117 | a region page gets the filler byte, a page below the size gets zeros; every refusal has a reason |
| Vm.Kernel.PageFault | kernel/trap.c:75-117 | the fault branch with its count: served once, or the process is killed with memory unchanged |
| Vm.Kernel.AllocProc | kernel/proc.c:109-158 | the first unused slot with a trapframe and a blank table; otherwise everything as before, and that only if no slot is unused or a frame was refused |
| Vm.Kernel.ProcPageTable | kernel/proc.c:195-225 | trampoline and trapframe mapped and nothing else, or everything freed |
| Vm.Kernel.FreePageTable | kernel/proc.c:229-247 | every frame of the table is freed but those at the two fixed addresses |
| Vm.Kernel.FreeProc | kernel/proc.c:162-191 | the free list gains exactly the process's frames less those at the two fixed addresses; no other process is affected |
| Vm.Kernel.GrowProc | kernel/proc.c:267-286 | eager growth and shrinking, with size, pages and failures |
| Vm.Kernel.Sbrk | kernel/sysproc.c:39-64 | growth moves the size only, shrinking deletes the pages past it; a shrink below zero changes nothing; -1 exactly past the limit |
| Vm.Kernel.MapZero | kernel/sysproc.c:213-238 | a region is reserved exactly for a positive size whose rounding fits an int and when there is none yet |
| Vm.Kernel.Fork | kernel/proc.c:290-342 | the child has copies of the parent's pages below the size and no other user page; otherwise nothing changed, and that only if no slot is unused or a frame was refused |
| Vm.Kernel.Perform | kernel/proc.c:162-342 | what each operation does to processes and to what they see; it keeps every frame in one place; only exit loses frames, exactly the leaked ones |
| Vm.Kernel.Run | kernel/vm.c:97-473 | over every run of sbrk, faults, mapzero, fork and exit, each step does what the operation should, every frame is in one place at every step, the frames lost are exactly those the exits leak, none if and only if no exit leaks, and none if every process exits with a size of at most 0x50000000 |
| Vm.Kernel.Touch | kernel/trap.c:75-117 | a user access is served from the page or after one fault; every refusal has a reason |
| LazyHeap.ShowsZeroed | kernel/vm.c:452-473 | mapping zeros where nothing was mapped shows a program nothing new |
| LazyHeap.ShowsDeleted | kernel/vm.c:246-258 | pages past the new size read as zeros from then on |
| LazyHeap.GrownShows | kernel/sysproc.c:39-64 | lazy growth, eager growth and shrinking have the same effect on what a program sees |
| LazyHeap.Access | kernel/trap.c:75-117 | a load or store below the size behaves as on plain bytes; every failure has a reason |
| LazyHeap.Grow | kernel/proc.c:267-286 | sbrk behaves as on plain bytes, lazily or eagerly |
| LazyHeap.Run | kernel/sysproc.c:39-64 | a run gives the answers of the plain-bytes specification up to where it stops, ends with its bytes if it does not, and stops only for a refused frame or an access that is not a permitted one below the size |
| LazyHeap.Compare | kernel/sysproc.c:39-64 | lazy equals eager: one run's answers are a prefix of the other's, all of them and the same final bytes if neither is stopped, and why a run is stopped |
| Umalloc.Units | user/umalloc.c:69 | the request rounded up to units plus a header, and no more |
| Umalloc.MergeTiles | user/umalloc.c:33-42 | merging touching blocks, with the sum of their sizes, keeps the tiling of the arena; `Umalloc.FreeSound` says when the header holds that sum |
| Umalloc.SplitTiles | user/umalloc.c:78-81 | splitting a block keeps the tiling of the arena |
| Umalloc.TotalIsArena | user/umalloc.c:24-90 | free plus live units equal the units obtained from sbrk as long as the blocks tile the arena, which `Umalloc.FreeSound` gives exactly |
| Umalloc.SearchStops | user/umalloc.c:30-32 | the search of `free` stops exactly at the header the block belongs behind |
| Umalloc.FreeMemory | user/umalloc.c:33-42 | the assignments of `free`, field by field with 32-bit additions, give the merged heap |
| Umalloc.FreeCoalesces | user/umalloc.c:33-42 | no two free blocks touch afterwards |
| Umalloc.FreeKeeps | user/umalloc.c:24-43 | `free` keeps the ring, its order, the tiling and every other block, and its headers tell the sizes if and only if the merged size is below 2^32 |
| Umalloc.WideLoses | user/umalloc.c:33-42 | a block of 2^32 units or more leaves units that no reading of the headers accounts for |
| Umalloc.FreeSound | user/umalloc.c:24-43 | after `free` some list and blocks account for exactly the memory obtained if and only if the sizes of the block and of the free blocks it touches add up to less than 2^32 |
| Umalloc.ArenaBounds | user/umalloc.c:24-43 | that sum is at most the memory obtained so far |
| Umalloc.WrapRun | user/umalloc.c:24-90 | 33 blocks of the largest size, allocated and freed in address order: the last merge loses units |
| Umalloc.ObtainKeeps | user/umalloc.c:46-60 | new memory keeps all of this |
| Umalloc.TakeWhole | user/umalloc.c:75-77 | handing out a whole block keeps all of this |
| Umalloc.TakeTail | user/umalloc.c:78-82 | handing out the tail of a block keeps all of this |
| Umalloc.NothingFits | user/umalloc.c:74-88 | when one lap has seen only smaller blocks, nothing fits |
| Umalloc.SbrkArgument | user/umalloc.c:46-54 | sbrk is asked for the recorded size if and only if the rounded request fits an int |
| Umalloc.Allocator.constructor | user/umalloc.c:20-22 | an allocator that has obtained nothing |
| Umalloc.Allocator.FindPlace | user/umalloc.c:30-32 | the free header with the greatest address below the block, found by a terminating search |
| Umalloc.Allocator.Free | user/umalloc.c:24-43 | the block is free again and merged, every live block is untouched and no unit is lost, if and only if the merged size is below 2^32 |
| Umalloc.Allocator.Morecore | user/umalloc.c:46-60 | the new memory is one more free block, or nothing changed; exactly when memory is lost instead |
| Umalloc.Allocator.Take | user/umalloc.c:74-86 | a new live block of exactly the size, overlapping nothing |
| Umalloc.Allocator.Malloc | user/umalloc.c:63-90 | a new block that is large enough and overlaps nothing; 0 exactly when nothing fits and sbrk refuses; the search ends; exactly when memory is lost instead, for every request |
| SleepWakeup.StepInv | kernel/proc.c:529-649 | every step of `sleep`, `wakeup`, `yield`, `kkill` and the scheduler keeps the invariant |
| SleepWakeup.ReachesInv | kernel/proc.c:529-649 | the invariant holds after any run |
| SleepWakeup.NoLostWakeup | kernel/proc.c:579-624 | when the condition holds and its lock is free, no process is asleep on the channel or on its way there |
| SleepWakeup.WakeupWakesAll | kernel/proc.c:610-624 | at the end of `wakeup` no process is asleep on the channel |
| SleepWakeup.SchedNoPanic | kernel/proc.c:509-538 | a process leaves the CPU, in `sleep` or in `yield`, holding its own lock and no other, and not marked running |
| SleepLock.MoveInv | kernel/sleeplock.c:21-41 | every step of acquiring and releasing keeps the owner field, the flag and what processes believe in agreement |
| SleepLock.GetsInv | kernel/sleeplock.c:21-41 | every run of sleep locks is a run of `sleep` and `wakeup` |
| SleepLock.MutualExclusion | kernel/sleeplock.c:21-41 | at most one process is between acquire and release |
| SleepLock.NoStuckWaiter | kernel/sleeplock.c:21-41 | while the spinlock is free a process sleeps on the lock only if some process holds it |
| ExitWait.StepInv | kernel/proc.c:290-452 | every step of fork, exit, reparent, wait and the sleep inside it keeps the invariant |
| ExitWait.ReachesInv | kernel/proc.c:290-452 | the invariant holds after any run |
| ExitWait.ParentAlive | kernel/proc.c:334-400 | at every moment every process but init, zombies included, has a living parent |
| ExitWait.ZombieNoticed | kernel/proc.c:363-452 | while wait_lock is free no process is asleep in kwait, or on its way there, with a zombie child |
| ExitWait.ReapedOnce | kernel/proc.c:407-452 | what kwait frees has left its CPU and has a pid never returned before |
| Bio.Pushed | kernel/bio.c:44-51 | linking at the front keeps a doubly linked list |
| Bio.Unlinked | kernel/bio.c:128-129 | unlinking keeps a doubly linked list of the others |
| Bio.RecycleExact | kernel/bio.c:78-88 | recycling a valid buffer keeps its block's contents if and only if the buffer was written |
| Bio.Cache.constructor | kernel/bio.c:36-52 | every buffer in the list once; every block reads as on disk |
| Bio.Cache.Find | kernel/bio.c:66-74 | the buffer that holds the block, if there is one |
| Bio.Cache.Oldest | kernel/bio.c:76-88 | the unused buffer released longest ago, if there is one |
| Bio.Cache.Bget | kernel/bio.c:58-90 | the block's one buffer or the least recently used free one; no block's contents change |
| Bio.Cache.Bread | kernel/bio.c:92-102 | the buffer has the block's current contents |
| Bio.Cache.Modify | kernel/bio.c:92-112 | changing a held buffer changes that block and no other |
| Bio.Cache.Bwrite | kernel/bio.c:106-112 | the disk gets the contents; no block's current contents change |
| Bio.Cache.Brelse | kernel/bio.c:116-137 | one reference less, and at zero the buffer is first in the list; no block's contents change |
| Bio.Cache.MoveToFront | kernel/bio.c:126-134 | the list is a permutation with the buffer first and still ordered by last release |
| Bio.Cache.Bpin | kernel/bio.c:139-144 | one reference more |
| Bio.Cache.Bunpin | kernel/bio.c:146-151 | one reference less |
| Virtio.RingIndex | kernel/virtio_disk.c:262-324 | 16-bit ring indices tell empty from non-empty and give the right place through wraparound |
| Virtio.InFlightApart | kernel/virtio_disk.c:200-263 | the chains of two requests in flight share no descriptor, and none of theirs is free |
| Virtio.Disk.constructor | kernel/virtio_disk.c:131-151 | all descriptors free and the rings empty |
| Virtio.Disk.AllocDesc | kernel/virtio_disk.c:155-166 | the lowest free descriptor, or none exactly if none is free |
| Virtio.Disk.FreeDesc | kernel/virtio_disk.c:168-182 | frees a descriptor in hand; the panic for a free one is unreachable |
| Virtio.Disk.FreeChain | kernel/virtio_disk.c:184-197 | frees exactly the three descriptors of the chain |
| Virtio.Disk.Alloc3Desc | kernel/virtio_disk.c:199-213 | three distinct descriptors, or all as before with fewer than three free |
| Virtio.Disk.Submit | kernel/virtio_disk.c:215-271 | the request joins those in flight with its buffer busy, or nothing changed and fewer than three descriptors are free |
| Virtio.Disk.DeviceTakes | kernel/virtio_disk.c:262-271 | the device finds each posted head once, in order |
| Virtio.Disk.DeviceCompletes | kernel/virtio_disk.c:309-324 | any request taken may be completed next |
| Virtio.Disk.Acknowledge | kernel/virtio_disk.c:309-324 | a completion clears the flag of exactly the buffer it was issued for |
| Virtio.Disk.Interrupt | kernel/virtio_disk.c:293-327 | every completion so far is handled |
| Virtio.Disk.Finish | kernel/virtio_disk.c:276-284 | the chain's descriptors are free again and nothing else changes |
| Pipe.Counters | kernel/pipe.c:88-126 | 32-bit counters tell full and empty apart through wraparound |
| Pipe.Ring.constructor | kernel/pipe.c:22-56 | an empty pipe |
| Pipe.Ring.WriteTurn | kernel/pipe.c:76-102 | exactly the bytes copied in are stored, in order; it sleeps only when full; how it returns, with a kill or a copy fault at any byte |
| Pipe.Ring.ReadTurn | kernel/pipe.c:105-134 | exactly the oldest bytes are delivered; a byte whose copy fails stays; how it returns |
| Pipe.HonestTurn | kernel/pipe.c:76-102 | a turn of one call keeps what every call has stored a prefix of what it was given |
| Pipe.Interleave | kernel/pipe.c:76-134 | through any interleaving of the turns of any calls, what was received is a prefix of what was sent and at most 512 bytes are in between; each call has stored, in order, a prefix of its bytes, and returns its length or -1 |
| Sh.SkipWhite | user/sh.c:278-279 | the first character that is not white space |
| Sh.PeekToken | user/sh.c:316-326 | whether the next character is one of those asked for |
| Sh.NextToken | user/sh.c:271-314 | the kind, the text and the end of the next token |
| Sh.RedirTrip | user/sh.c:380-403 | rendered redirections are read back around the command |
| Sh.ArgsTrip | user/sh.c:434-449 | rendered arguments are read back into the command inside its redirections |
| Sh.ExecTrip | user/sh.c:405-452 | a simple command or a block is read back |
| Sh.PipeTrip | user/sh.c:367-378 | a pipeline is read back |
| Sh.AmpTrip | user/sh.c:355-359 | background marks are read back |
| Sh.LineTrip | user/sh.c:350-365 | a list is read back |
| Sh.RoundTrip | user/sh.c:333-452 | every command tree with at most nine arguments per command, of words without NUL, is read back from its rendering |
| Sh.TooManyArgs | user/sh.c:434-449 | a command with ten arguments or more is refused |
| Sh.LineIn | user/sh.c:271-452 | every word of a parsed line is in the line where it says and ends there |
| Sh.NulTerminate | user/sh.c:455-499 | a NUL after every word and no other change |
| Sh.WordsTerminated | user/sh.c:455-499 | afterwards the C string at each argument and file name is exactly its token |
| Grep.BeginsCons | user/grep.c:84-106 | how the declarative meaning unfolds over the first item |
| Grep.MatchHere | user/grep.c:84-96 | true exactly if the pattern matches a prefix of the text |
| Grep.MatchStar | user/grep.c:98-106 | true exactly if some run of accepted characters is followed by a match |
| Grep.Match | user/grep.c:72-82 | true exactly if some position of the text matches the pattern's declarative meaning |

## Left out

- Assembly, control registers, TLB flushes, context-switch registers, interrupts and memory fences: lock steps are
  sequentially consistent and a context switch is a scheduling step.
- Device registers, the UART and PLIC drivers, `virtio_disk_init` and the console.
- `kexec` and ELF loading: it frees the old page table without unmapping the `mapzero` region.
- `sys_shmem` and `sys_map_ro`: their frames are shared or never freed, so they are outside the ownership argument.
- `copyout`, `copyin` and `copyinstr`: user copies are parameters saying how many bytes can be copied.
- Path walking, directories, link counts, `ialloc` and the system-call layer.
- The byte layout of on-disk inodes: `iupdate` is logging the inode's block.
- `usertests`, `mkfs`, `eafitos` and the small utilities.
- Log.LogDevice.constructor: the recovery that `initlog` runs is the separate method `RecoverFromLog`.
- Log.LogDevice.WriteHead: the header block is written in one step, since it fits one disk sector.
- Fs.FileSystem.constructor: the superblock has been read and its magic number checked, and the log recovered.
- Fs.FileSystem.WriteChunk: after a copy fault `writei` releases the changed buffer without logging it, so the bytes
  copied so far are in the cache only and last until the buffer is recycled; `Fs.dfy` has no cache, and
  `Bio.Cache.Brelse` is stated for buffers that are unchanged, written or pinned by the log.
- Fs.FileSystem.FileWrite: no other process writes the file between two chunks.
- Fs.FileSystem.ReadI: user memory is modelled by how many bytes fit, not by addresses.
- Vm.Kernel.Run: the operations are sbrk, page fault, mapzero, fork and exit, one at a time.
- Vm.Kernel.UvmUnmap: an entry is cleared before its frame is freed; the source does it in the other order, under the
  same lock.
- Vm.Kernel.FreePageTable: the process lets go of its table before `freewalk`, which the source does right after it.
- Vm.Kernel.FreeProc: the other fields of the process structure are not modelled.
- Vm.Kernel.Fork: saved registers, open files and the working directory are not modelled.
- Vm.Kernel.Touch: an access is one byte, and instruction fetches are not modelled.
- LazyHeap.Compare: says nothing about accesses at or above the size, which the hardware allows in the last page only
  if it happens to be mapped.
- Umalloc.Allocator.Malloc: sbrk returns memory aligned to a header, above the arena's base and outside the arena; the
  bytes inside blocks are not modelled. Once memory is lost the model stops: it says nothing of calls on such a heap.
- Umalloc.Allocator.Morecore: when sbrk is asked for another size than the one recorded, the model stops before the
  header is written.
- SleepWakeup.SchedNoPanic: the fourth panic of `sched`, for enabled interrupts, is not modelled.
- SleepWakeup.StepInv: a process changes a condition from false to true only right before `wakeup`, under its lock.
- ExitWait.StepInv: files and the working directory that exit closes are not modelled, and `wait_lock` sections of one
  assignment are one step.
- Bio.Cache.Brelse: the last reference to a changed buffer is given up only once the buffer is written, which `writei` does
  not keep to after a copy fault.
- Bio.Cache.Bread: operations of different processes are atomic; the sleep lock of a buffer is in `SleepLock.dfy`.
- Virtio.Disk.Submit: addresses, lengths and write flags of descriptors, and the transfer of data, are not modelled.
- Pipe.Ring.WriteTurn: waking and sleeping are the end of a turn; which process goes next is arbitrary.
- Sh.LineTrip: the recursive descent is modelled on values, as functions from the text left to the command and the
  text after it; the scanning loops and `nulterminate` work on the line in place.
- Grep.Match: the buffer handling of the command around the matcher is not modelled.
