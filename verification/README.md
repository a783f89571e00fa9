# xv6, modelled and proved in Dafny

This project models the parts of the xv6 kernel and its user programs where most of the
state and arithmetic is, and proves what they are for.  `dafny verify dfyconfig.toml` checks
everything.

| files | part of the system | main results |
|---|---|---|
| `basics` | what several parts need: options, bytes, sequences without repeats | |
| `wal`, `logmachine`, `logproofs`, `logtheorems`, `logreserve`, `logcommit`, `logops`, `loghistory` | write-ahead log, buffer cache and disk as one state machine over every interleaving, with a crash allowed between any two disk writes | crash atomicity; what every block holds, what is committed and what a crash leaves, read off the history of steps alone; atomic and durable operations, exact reference counts, when a write is refused, when a commit panics |
| `bio`, `log`, `logsession` | `bio.c` and `log.c` as code: the LRU list by its pointers, commit and recovery with every disk state they pass through, and boot followed by any transactions | LRU order, uniqueness, atomic commit, recovery, a session is a whole number of transactions at every disk write |
| `umalloc` | the Kernighan and Ritchie allocator | heap invariant, conservation, disjointness over every run, null exactly when sbrk refuses |
| `sv39`, `vm`, `usermem`, `usergrow`, `vmlife` | Sv39 page tables, page allocator, user memory, families of address spaces that are made, resized, forked and freed | trees refine partial maps and agree with the hardware's translation, exact rollback, no page lost, copy round trip |
| `fsbits`, `fsmap`, `fs`, `fsruns`, `fsformat` | free map, inode block map, files, and the bytes they have on disk | block ownership, files refine byte sequences over every run |
| `dirs`, `paths` | directories and path names | directories refine maps, a path names what its walk reaches |
| `virtio`, `virtioruns`, `virtiodata` | the virtio block driver and a device that answers in any order | descriptor ownership, one release per request, what blocks and buffers hold, over every run; every request can end |
| `shgrammar`, `sh`, `shlines`, `shtext` | the shell's scanner, parser and NUL-termination | the exact language, down to white space, and the meaning of every line in it; parse of print is the identity, words intact |
| `pipe`, `piperuns` | pipes | FIFO across counter wrap, when calls sleep, no lost wakeup, every call can end, exact losses |
| `grep`, `grind` | regex matcher, random numbers | exact language, permutation |

Code that updates things in place is modelled by classes and loops whose contracts tie them
to specification functions; memory that the source reaches through pointers is a field of
type `seq`, `map` or `array`, and a pointer is an index into it.  A panic is a result value,
so that when it happens is part of a contract.  A section that the source runs under one lock
is one step.  In the state machine of the log a step that would panic is not enabled, and
predicates tell this from waiting (`LogReserve.Refused`, `LogCommit.Panics`).

Six properties that one might expect are false of the code.  Each has its exact condition and
an input at which it fails:

- `log_write` can refuse a block of an operation that is within its reservation.  The call is
  refused exactly when the log holds at least LOGSIZE blocks, or as many as there are log
  blocks after the header (`LogReserve.RefusalExact`).  No append is refused, in any run,
  exactly when the log has more than LOGSIZE blocks, and mkfs builds one of LOGSIZE
  (`LogReserve.ReservationExact`, `LogReserve.MkfsLogTooSmall`).  Even then a block that is
  already logged is refused once all reservations are used up, because space is tested before
  absorption (`LogReserve.RefusedMeansFull`, `LogReserve.AbsorbRefused`,
  `LogReserve.SomeRefused`).
- `commit` needs a buffer besides those in use.  Its next read of a log block panics exactly
  when all NBUF buffers have a user or a pin (`LogCommit.PanicExact`), and in every state the
  committing process panics, waits for a lock or goes on (`LogCommit.CommitOutcome`).  The code
  finishes exactly when a buffer is unused at its start (`Log.Log.Commit`).  On the image that
  mkfs builds, 29 logged blocks and one reader outside any operation are enough for the panic
  (`LogCommit.BusyReached`).  If all readers let go of their buffers in time, a commit can
  finish exactly when its transaction has fewer than NBUF blocks or the first of them is
  installed already (`LogCommit.CommitCompletes`, `LogCommit.FullReached`).
- `malloc` passes a 64-bit byte count to `sbrk`, which takes an `int`.  It arrives unchanged
  exactly below 2^27 units (`Umalloc.SbrkArgumentExact`, `Umalloc.SbrkArgumentNegative`).  From
  there on, when no free block fits and sbrk does not refuse, `malloc` returns a block that
  reaches beyond what sbrk has handed out (`Umalloc.Heap.Malloc`); `Umalloc.WildPointer` is a
  call that does.
- `uvmfree` returns every page of a space exactly when nothing is mapped at or above the size
  it is given, because `freewalk` passes over leaves instead of stopping at them
  (`Vm.Memory.Uvmfree`, `Vm.LeaksExact`; `VmLife.Leak` is a space whose page is lost).
- `dirlink` binds the name to the inode number it is given exactly when that is above 0 and
  below 65536 (`Dirs.Dirlink`); `Dirs.LinkWraps` links 65536, which binds nothing, and 65537,
  which binds inode 1.
- `piperead` takes a byte out of the pipe before it copies it out, so a read that faults loses
  one.  It does exactly when the bytes that can be copied out are fewer than those asked for
  and those in the pipe (`Pipe.Pipe.ReadTurn`).  Over a run the readers receive exactly the
  bytes taken out when no read has lost one (`PipeRuns.ReceivedExact`,
  `PipeRuns.ReadLoses`).

A failed `uvmalloc` returns every leaf frame, but page-table pages that it added stay in the
space until `uvmfree`; that these are then returned as well is part of `VmLife.RunAll`.

Where comments and code disagree, the model follows the code: `uvmdealloc` is said to accept
an old size larger than the process (Kernel/Xv6/kernel/vm.c:253) but panics on the first
unmapped page; LOGSIZE is called the number of data blocks in the log
(Kernel/Xv6/kernel/param.h:10), but mkfs counts the header in it.

## Model

| member | source | states |
|---|---|---|
| LogTheorems.CrashAtomicity | Kernel/Xv6/kernel/log.c:69-123 | for every run with any interleaving and any crashes, also inside recovery: recovering the disk gives exactly the transactions whose header write had finished; outside installation the home blocks already are those |
| LogTheorems.RecoveryCompletes | Kernel/Xv6/kernel/log.c:116-123 | from any state of an interrupted recovery some crash-free continuation finishes it, with the committed transactions on the home blocks |
| LogHistory.CurrentExact | Kernel/Xv6/kernel/log.c:126-235 | in every run, from the list of steps alone: each home block is what the last log_write of it found made of it since the last crash, or else what is committed; and the committed transactions are, group by group, the blocks logged up to each header write with what was made of them |
| LogHistory.BreadLatest | Kernel/Xv6/kernel/bio.c:92-103 | in every run, the buffer that bread hands out holds that value |
| LogHistory.CrashLeaves | Kernel/Xv6/kernel/log.c:69-123 | a crash at any point of any run leaves in each home block exactly what the history has committed |
| LogHistory.RunTold | Kernel/Xv6/kernel/log.c:126-235 | phase, open operations, logged blocks and buffers under change are what the steps so far say |
| LogTheorems.RefcntExact | Kernel/Xv6/kernel/bio.c:58-151 | in every run refcnt is open handles plus the log's pin; a logged block not yet installed is cached, valid and cannot be recycled |
| LogTheorems.CommitExclusive | Kernel/Xv6/kernel/log.c:126-175 | in every run committing implies no open operation, outstanding counts the open ones, and logged block numbers are distinct home blocks |
| LogTheorems.RunInv | Kernel/Xv6/kernel/log.c:178-235 | the invariant behind these holds in every reachable state |
| LogProofs.StepInv | Kernel/Xv6/kernel/log.c:178-235 | every step of the log, the cache, a crash or recovery keeps the invariant |
| LogReserve.ReservationHolds | Kernel/Xv6/kernel/log.c:126-142 | if each operation appends at most MAXOPBLOCKS blocks, logged blocks plus unused reservations never exceed LOGSIZE |
| LogReserve.RefusalExact | Kernel/Xv6/kernel/log.c:214-235 | in every in-budget run, a log_write of a held block by an open operation is refused, appending or absorbing, if and only if the log holds LOGSIZE blocks or has no free log block |
| LogReserve.RefusedMeansFull | Kernel/Xv6/kernel/log.c:220-229 | with more than LOGSIZE log blocks, what is refused is exactly a block already logged, when all reservations are used up |
| LogReserve.AbsorbRefused | Kernel/Xv6/kernel/log.c:220-229 | an in-budget run in which a re-write of a logged block is refused, for every such log |
| LogReserve.SomeRefused | Kernel/Xv6/kernel/log.c:214-235 | for no log size are all in-budget calls accepted |
| LogReserve.ReservationExact | Kernel/Xv6/kernel/log.c:214-235 | no append of an in-budget operation is refused, in any run, if and only if the log has more than LOGSIZE blocks |
| LogReserve.MkfsLogTooSmall | Kernel/Xv6/mkfs/mkfs.c:25-25 | on the image that mkfs builds, some in-budget run meets the "too big a transaction" panic on an append |
| LogCommit.PanicExact | Kernel/Xv6/kernel/log.c:178-203 | in every state of a commit with a block left to write, the read of the log block finds no buffer if and only if all NBUF buffers are in use |
| LogCommit.CommitOutcome | Kernel/Xv6/kernel/log.c:178-203 | in every state of a commit, the committing process takes a step, perhaps recycling a buffer, if and only if it neither panics nor waits for a lock |
| LogCommit.BusyReached | Kernel/Xv6/kernel/file.c:120-124 | on mkfs's image and any larger log, an in-budget run with 29 logged blocks and one reader outside any operation in which commit panics |
| LogCommit.CommitCompletes | Kernel/Xv6/kernel/log.c:178-203 | from any state inside a commit there is a crash-free schedule, in which other processes release their buffers in time, that finishes it, if and only if the transaction has fewer than NBUF blocks or the first of them is installed already |
| LogCommit.CommitFinishes | Kernel/Xv6/kernel/log.c:178-203 | constructs that schedule, which changes no block |
| LogCommit.FullReached | Kernel/Xv6/kernel/log.c:178-191 | for every log of more than LOGSIZE blocks, an in-budget run to a commit that no schedule can finish |
| LogOps.OperationAtomic | Kernel/Xv6/kernel/log.c:126-235 | in every run, all blocks that an open operation has logged wait in the log together or are in one and the same committed transaction |
| LogHistory.Durable | Kernel/Xv6/kernel/log.c:146-203 | in every run, when every operation begun since the last crash has ended and no commit is under way, all that was ever logged is on the home blocks and survives a crash |
| Wal.RecoversToExact | Kernel/Xv6/kernel/log.c:69-83 | the per-block description of what a disk recovers to is equivalent to running installation on it |
| Wal.HeaderCommits | Kernel/Xv6/kernel/log.c:99-114 | writing the header turns a disk that recovers to c into one that recovers to c with the transaction applied |
| Wal.LogBlockWrite | Kernel/Xv6/kernel/log.c:178-191 | while the header is empty, writing log blocks does not change what the disk recovers to |
| Wal.ReinstallKeeps | Kernel/Xv6/kernel/log.c:69-83 | installing any logged block, again or out of turn, does not change what the disk recovers to |
| Wal.ClearKeeps | Kernel/Xv6/kernel/log.c:116-123 | once all blocks are installed the header can be cleared |
| Wal.InstallAt | Kernel/Xv6/kernel/log.c:69-83 | installation puts log block i on its home block and changes no other home block |
| Log.Log.LogWrite | Kernel/Xv6/kernel/log.c:214-235 | panics exactly on a full log or outside a transaction; else the block is in the log once with its latest contents, newly logged blocks are pinned, and the cache still agrees with log and disk |
| Log.Log.EndOp | Kernel/Xv6/kernel/log.c:146-175 | the last operation to end commits, and every disk state on the way recovers to the old or the new contents; an earlier one writes nothing; the commit panics exactly when no buffer is unused |
| Log.Log.WriteHead | Kernel/Xv6/kernel/log.c:102-114 | one disk write, of the header with the logged block numbers |
| Log.Log.ReadHead | Kernel/Xv6/kernel/log.c:86-97 | the in-memory log is the one on disk, and the disk is unchanged |
| Log.Log.WriteLog | Kernel/Xv6/kernel/log.c:178-191 | every disk state passed through recovers to the old contents |
| Log.Log.InstallTrans | Kernel/Xv6/kernel/log.c:69-83 | every disk state passed through recovers to the committed contents; afterwards all blocks are installed and unpinned |
| Log.Log.Commit | Kernel/Xv6/kernel/log.c:193-203 | every disk state up to a point recovers to the old contents and every state after it to the new; it finishes if and only if some buffer is unused, whoever uses the others; with only the log's pins that is fewer than NBUF blocks |
| Log.Log.RecoverFromLog | Kernel/Xv6/kernel/log.c:116-123 | always finishes with no buffer in use; every disk state on the way recovers to the same contents, and at the end the home blocks are those contents |
| Log.SpareExact | Kernel/Xv6/kernel/log.c:193-203 | with only the log's pins held, the spare buffer that the code of commit needs exists if and only if the transaction has fewer than NBUF blocks |
| LogSession.Update | Kernel/Xv6/kernel/log.c:214-235 | bread, change, log_write and brelse of one block inside an operation extend the pending transaction by that change and write nothing to disk; panics exactly on a full log |
| LogSession.Transaction | Kernel/Xv6/kernel/log.c:126-203 | begin_op, any changes, end_op: every disk state recovers to the contents without or with all of them; cannot panic within MAXOPBLOCKS |
| LogSession.Session | Kernel/Xv6/kernel/log.c:53-235 | from any disk, recovery and then any transactions: every disk state passed through recovers to a whole number of transactions, in order, and the last is all of them |
| Bio.Unlink | Kernel/Xv6/kernel/bio.c:128-129 | two pointer writes remove one buffer from the cycle and keep the rest in order |
| Bio.LinkFront | Kernel/Xv6/kernel/bio.c:130-133 | four pointer writes put a buffer first in the cycle |
| Bio.Relink | Kernel/Xv6/kernel/bio.c:126-134 | brelse's six writes move a buffer to the front and keep the others in order |
| Bio.Cache.constructor | Kernel/Xv6/kernel/bio.c:36-53 | one cycle through head and all NBUF buffers |
| Bio.Cache.Bget | Kernel/Xv6/kernel/bio.c:58-89 | a hit adds a reference; a miss recycles the unreferenced buffer released longest ago; no block is ever in two buffers; panics exactly when all are in use |
| Bio.Cache.Recycle | Kernel/Xv6/kernel/bio.c:77-88 | finds the oldest unreferenced buffer, or shows there is none |
| Bio.GotUnique | Kernel/Xv6/kernel/bio.c:58-89 | bget keeps at most one buffer per block of a real device |
| Bio.Cache.Bread | Kernel/Xv6/kernel/bio.c:92-103 | a locked buffer with the cached or the disk's contents |
| Bio.Cache.Bwrite | Kernel/Xv6/kernel/bio.c:106-112 | exactly one block of the disk changes, in one step |
| Bio.Cache.Brelse | Kernel/Xv6/kernel/bio.c:116-137 | dropping the last reference makes the buffer the most recent; the list stays ordered by release time |
| Bio.Cache.Bpin | Kernel/Xv6/kernel/bio.c:139-144 | one more reference, nothing else |
| Bio.Cache.Bunpin | Kernel/Xv6/kernel/bio.c:146-151 | one reference less, without moving the buffer |
| Umalloc.Heap.Malloc | Kernel/Xv6/user/umalloc.c:60-87 | asks sbrk, once, exactly when no free block fits, and returns null exactly when sbrk refuses; a pointer comes with a fresh block of at least nbytes that overlaps no live one; the block reaches beyond the memory obtained exactly from 2^27 units on; terminates |
| Umalloc.Heap.Free | Kernel/Xv6/user/umalloc.c:21-41 | the block joins the free units, coalesced with both neighbours, and the heap invariant holds |
| Umalloc.Heap.FindSlot | Kernel/Xv6/user/umalloc.c:27-29 | the search loop stops at the one place where the block belongs |
| Umalloc.Coalesce | Kernel/Xv6/user/umalloc.c:30-39 | the four ways of joining neighbours all give one sorted cycle of blocks no two of which touch |
| Umalloc.Heap.Morecore | Kernel/Xv6/user/umalloc.c:43-58 | on success the free list has a block that is large enough, and no other; null exactly when sbrk refuses, with nothing changed; from 2^27 units on the last unit of the block is not one that sbrk handed out |
| Umalloc.Heap.Serve | Kernel/Xv6/user/umalloc.c:72-82 | exact fit or tail split yields a live block of exactly nunits |
| Umalloc.RunAll | Kernel/Xv6/user/umalloc.c:21-87 | every sequence of calls is answered as it should be, call by call: null exactly after a refusal by sbrk; the live blocks are exactly the pointers handed out and not yet freed, each of the units asked for; free plus live units are the units obtained from sbrk |
| Umalloc.Conservation | Kernel/Xv6/user/umalloc.c:21-87 | the sizes of free and live blocks add up to the units obtained from sbrk |
| Umalloc.Disjoint | Kernel/Xv6/user/umalloc.c:60-87 | a live block shares no unit with another live or free block |
| Umalloc.SbrkArgumentExact | Kernel/Xv6/user/umalloc.c:51-51 | sbrk receives the byte count meant if and only if it is below 2^27 units |
| Umalloc.SbrkArgumentNegative | Kernel/Xv6/user/umalloc.c:51-51 | a request of 2^31 bytes asks sbrk to shrink the process |
| Umalloc.WildPointer | Kernel/Xv6/user/umalloc.c:43-87 | malloc of 2^31 bytes on a new heap returns a block that is not memory of the process |
| Sv39.SlotInjective | Kernel/Xv6/kernel/vm.c:85-103 | walk sends distinct pages, of one space or of two, to distinct leaf slots |
| Sv39.HardwareAgrees | Kernel/Xv6/kernel/vm.c:72-84 | for every address and every tree, the three-level walk of the hardware, by the bits of the address and the flags of each entry, translates as the partial map of pages says |
| Sv39.PxOfAddress | Kernel/Xv6/kernel/riscv.h:355-357 | the index of level n is the nine bits of the address from bit 12 + 9 n up |
| Sv39.PxInjective | Kernel/Xv6/kernel/riscv.h:355-357 | the three indices identify the page |
| Sv39.FlagPositions | Kernel/Xv6/kernel/riscv.h:341-345 | V, R, W, X and U are bits 0 to 4 of the packed entry |
| Sv39.BitsUnpack | Kernel/Xv6/kernel/riscv.h:348-352 | frame number and flags are recovered from the packed entry |
| Sv39.GrownLookup | Kernel/Xv6/kernel/vm.c:96-99 | a new table page changes no translation |
| Sv39.WrittenLookup | Kernel/Xv6/kernel/vm.c:158-158 | writing one leaf entry changes the translation of exactly one page of one space |
| Vm.Memory.constructor | Kernel/Xv6/kernel/kalloc.c:26-40 | exactly the whole pages inside the range are free |
| Vm.Memory.Kalloc | Kernel/Xv6/kernel/kalloc.c:65-82 | the head of the free list, handed out once; fails exactly on an empty list |
| Vm.Memory.Kfree | Kernel/Xv6/kernel/kalloc.c:46-63 | the page moves from the pages handed out to the free list |
| Vm.Memory.Walk | Kernel/Xv6/kernel/vm.c:85-103 | the leaf slot, found through entry vpn / 2^18 of the root and entry vpn / 512 mod 512 of the table there, at vpn mod 512; no translation of any space changes, interior pages stay an unshared tree even when memory runs out, and new tables are below this root |
| Vm.Memory.Mappages | Kernel/Xv6/kernel/vm.c:142-165 | success binds exactly the requested pages to consecutive frames; failure binds a prefix; nothing else changes; when it can panic |
| Vm.Memory.Uvmunmap | Kernel/Xv6/kernel/vm.c:170-192 | removes exactly its range, and frees exactly the frames behind it; panics exactly on an unmapped page |
| Vm.Memory.Uvmcreate | Kernel/Xv6/kernel/vm.c:196-205 | a new root that translates nothing; other spaces unchanged |
| Vm.Memory.Uvmalloc | Kernel/Xv6/kernel/vm.c:225-249 | success adds zeroed pages in fresh frames and changes nothing else; failure restores every translation and every frame; it fails only with fewer than three free pages for each page to be added, and always with fewer than one |
| Vm.Memory.Uvmdealloc | Kernel/Xv6/kernel/vm.c:255-267 | removes exactly the pages between the sizes; panics exactly on an unmapped page among them |
| Vm.GrewUndone | Kernel/Xv6/kernel/vm.c:237-246 | unmapping what was added gives back the old translations and the old frames |
| Vm.Memory.Freewalk | Kernel/Xv6/kernel/vm.c:271-288 | exactly the page-table pages of the subtree go back, once each |
| Vm.Memory.Uvmfree | Kernel/Xv6/kernel/vm.c:292-298 | frames below sz and all tables go back once each; other spaces translate as before; nothing of the space stays allocated if and only if nothing was mapped at or above sz |
| Vm.LeaksExact | Kernel/Xv6/kernel/vm.c:282-285 | which frames are left behind: those of pages at or above sz |
| Vm.Memory.Uvmcopy | Kernel/Xv6/kernel/vm.c:306-334 | success copies every page into a fresh frame with the same flags; failure restores every translation and every frame, and means fewer than three free pages for each page |
| Vm.ChildCopies | Kernel/Xv6/kernel/vm.c:306-334 | parent and child have the same bytes and flags page by page and no frame in common |
| VmLife.Growproc | Kernel/Xv6/kernel/proc.c:317-333 | for every int request: the new size, also where it wraps round; -1 only for want of free pages; exactly the pages between the sizes are added or removed; with pages enough it panics if and only if the size would pass MAXVA; every space of the family stays mapped exactly up to its size in frames of its own |
| VmLife.Fork | Kernel/Xv6/kernel/proc.c:335-355 | a new space with the flags and bytes of its parent page by page, in frames nobody had, or, only for want of free pages, nothing changed at all; never panics |
| VmLife.Exit | Kernel/Xv6/kernel/proc.c:216-224 | frees exactly the frames of the space and keeps the rest of the family; never panics |
| VmLife.RunAll | Kernel/Xv6/kernel/vm.c:196-334 | any sequence of creations, resizings, forks and exits: each changes the sizes as it should and is refused only for want of free pages; spaces of before translate as they did, and when the family is gone, frames, page tables and free pages are as they were |
| VmLife.FamilyGone | Kernel/Xv6/kernel/vm.c:292-298 | a family without spaces holds no frame and no page table |
| VmLife.Leak | Kernel/Xv6/kernel/vm.c:282-298 | a space freed with a page mapped at its size: no page table is left but the frame is still handed out |
| UserMem.Walkaddr | Kernel/Xv6/kernel/vm.c:108-126 | the frame of a mapped user page, and nothing changes |
| UserMem.Copyout | Kernel/Xv6/kernel/vm.c:352-372 | stores the bytes one by one through the page table, across pages and also where pages share frames; succeeds exactly when every page is a user page; on failure exactly the bytes before the first bad page |
| UserMem.StoredByte | Kernel/Xv6/kernel/vm.c:352-372 | where user pages have frames of their own, user memory is an array: exactly the bytes stored change |
| UserMem.StoreChunk | Kernel/Xv6/kernel/vm.c:359-366 | within a page, storing bytes one by one is one memmove |
| UserMem.StoredOnly | Kernel/Xv6/kernel/vm.c:352-372 | no frame is written that no user page has |
| UserMem.Copyin | Kernel/Xv6/kernel/vm.c:377-397 | returns exactly the bytes of the range; succeeds exactly when every page is a user page |
| UserMem.OutThenIn | Kernel/Xv6/kernel/vm.c:352-397 | what copyout wrote, copyin reads back, at any address and length |
| UserMem.Copyinstr | Kernel/Xv6/kernel/vm.c:403-440 | succeeds exactly when a terminated string shorter than max is there, and copies it |
| UserGrow.GrowThenUse | Kernel/Xv6/kernel/vm.c:225-249 | memory added by uvmalloc is user memory: copyin reads zeros from all of it, copyout succeeds on all of it, and what it writes is read back |
| UserGrow.Uvmclear | Kernel/Xv6/kernel/vm.c:338-347 | exactly one page loses its user bit; panics only if it has no entry |
| UserGrow.GuardStops | Kernel/Xv6/kernel/vm.c:338-397 | no copy in either direction that touches a cleared page succeeds |
| FsBits.GetOfPut | Kernel/Xv6/kernel/fs.c:342-347 | words of an indirect block are independent |
| FsBits.UsedOfMarked | Kernel/Xv6/kernel/fs.c:75-78 | setting the bit of one block changes that of no other, across bytes and map blocks |
| FsBits.UsedOfUnmarked | Kernel/Xv6/kernel/fs.c:97-102 | clearing likewise |
| FsMap.SoundMeans | Kernel/Xv6/kernel/fs.c:315-354 | direct, indirect and listed blocks of all inodes are pairwise distinct data blocks, and the free map is exactly metadata plus these |
| FsMap.AssignStep | Kernel/Xv6/kernel/fs.c:322-327 | putting a new block in an empty slot keeps all of this and the blocks of every file |
| FsMap.PokedByte | Kernel/Xv6/kernel/fs.c:459-464 | writing into a file's block changes those bytes of that file only |
| FsMap.FreeListed | Kernel/Xv6/kernel/fs.c:374-377 | when its turn comes, each listed block is still marked used |
| FileSys.Fs.constructor | Kernel/Xv6/mkfs/mkfs.c:234-248 | the free map with the metadata blocks marked satisfies the invariant, with all files empty |
| FileSys.Fs.Balloc | Kernel/Xv6/kernel/fs.c:65-88 | the first free block, marked and zeroed, nothing else changed; 0 exactly when none is free |
| FileSys.Fs.Bfree | Kernel/Xv6/kernel/fs.c:91-105 | clears exactly one bit; panics exactly when it is clear |
| FileSys.Fs.Bmap | Kernel/Xv6/kernel/fs.c:315-354 | the block behind a file block, new and zeroed if there was none; all blocks of all files kept; 0 only on a full disk; panics exactly beyond MAXFILE |
| FileSys.Fs.Itrunc | Kernel/Xv6/kernel/fs.c:358-386 | exactly the inode's blocks are freed, also those beyond its size; bfree never panics on the way; other files unchanged |
| FileSys.Fs.Readi | Kernel/Xv6/kernel/fs.c:406-435 | the exact slice of the file, across the direct/indirect boundary, with nothing allocated |
| FileSys.Fs.Writei | Kernel/Xv6/kernel/fs.c:444-478 | replaces exactly the bytes written and extends the file; no holes; other files unchanged; -1 exactly on a bad range; short only on a full disk, at a block boundary |
| FsRuns.RunAll | Kernel/Xv6/kernel/fs.c:315-478 | every run of reads, writes and truncations answers each call, in order and with its arguments, as on plain byte sequences, and leaves those contents; a write is short only when the disk is full, and then ends at a block boundary |
| FsFormat.UsedFormat | Kernel/Xv6/kernel/fs.c:65-88 | block x is in use exactly when bit x mod 8 of byte x / 8 of the map is set |
| FsFormat.FileFormat | Kernel/Xv6/kernel/fs.c:315-354 | byte k of a file is byte k mod 1024 of the block at addrs[k / 1024], or from the twelfth block on of the block numbered by four bytes, the least significant first, of the block at addrs[12] |
| Dirs.Strncmp | Kernel/Xv6/kernel/string.c:60-68 | 0 exactly when the names agree up to a NUL or the limit |
| Dirs.Strncpy | Kernel/Xv6/kernel/string.c:70-81 | the same name, filled up with NULs |
| Dirs.DecodeEncode | Kernel/Xv6/kernel/fs.h:56-59 | a directory entry is recovered from its 16 bytes |
| FsFormat.EntryFormat | Kernel/Xv6/kernel/fs.h:56-59 | entry i is the 16 bytes from 16 i: two of inode number, the least significant first, and 14 of name; it binds a name exactly when the number is not 0 and the name is there up to a NUL or 14 bytes |
| FsFormat.NameFormat | Kernel/Xv6/kernel/string.c:60-68 | a name is the longest run of bytes before a NUL and a limit |
| Dirs.Dirlookup | Kernel/Xv6/kernel/fs.c:490-514 | the first entry in use with that name; nothing changes; panics exactly on a torn entry reached before a match |
| Dirs.LookupIsMap | Kernel/Xv6/kernel/fs.c:490-514 | on a well-formed directory dirlookup is lookup in the map it stands for |
| Dirs.Dirlink | Kernel/Xv6/kernel/fs.c:518-545 | on a well-formed directory: binds the name to the number given if and only if it is above 0 and below 65536; fails only if the name is there, the disk is full or the directory has its largest size; a failure changes no directory |
| Dirs.LinkBinds | Kernel/Xv6/kernel/fs.c:539-542 | writing a new name into a free entry adds that binding to the map and no other |
| Dirs.LinkWraps | Kernel/Xv6/kernel/fs.c:539-542 | dirlink of 65536 succeeds and binds nothing; of 65537 it succeeds and binds inode 1 |
| Paths.Skipelem | Kernel/Xv6/kernel/fs.c:561-584 | takes the next non-empty slash-separated element, cut to 14 bytes, off the path; fails exactly when none is left |
| Paths.ComponentsOfJoined | Kernel/Xv6/kernel/fs.c:561-584 | the elements of a path are the non-empty names between its slashes, each cut to 14 bytes, however many slashes stand before, between and after them |
| Paths.Namex | Kernel/Xv6/kernel/fs.c:590-623 | comes to inode i exactly when a list of inodes leads from the root or the current directory to i, each found by dirlookup of the next element in the one before; the parent form stops before the last element, which it returns, and exists exactly when there is one and i is a directory; panics exactly on a torn directory on the way |
| Paths.NamedAnswers | Kernel/Xv6/kernel/fs.c:590-623 | the same of the fold of dirlookup over the elements |
| Paths.LastStep | Kernel/Xv6/kernel/fs.c:600-616 | a path reaches i exactly when all but its last element reach a directory in which dirlookup of the last finds i |
| Paths.ParentThenLast | Kernel/Xv6/kernel/fs.c:625-637 | nameiparent and then dirlookup of the name it returns come to what namei comes to |
| Paths.ResolveMore | Kernel/Xv6/kernel/fs.c:600-616 | one turn of the loop extends the fold by one element |
| Virtio.Disk.constructor | Kernel/Xv6/kernel/virtio_disk.c:144-146 | all descriptors free |
| Virtio.Disk.AllocDesc | Kernel/Xv6/kernel/virtio_disk.c:155-166 | a free descriptor, or none exactly when none is free |
| Virtio.Disk.FreeDesc | Kernel/Xv6/kernel/virtio_disk.c:168-182 | panics exactly on a bad index or a free descriptor |
| Virtio.Disk.FreeChain | Kernel/Xv6/kernel/virtio_disk.c:184-197 | frees and clears exactly its chain; no free_desc on the way panics |
| Virtio.Disk.Alloc3 | Kernel/Xv6/kernel/virtio_disk.c:199-213 | three different free descriptors, or, exactly when fewer are free, nothing changed |
| Virtio.Disk.Submit | Kernel/Xv6/kernel/virtio_disk.c:215-281 | one new request with a chain of its own, queued last; each descriptor free or in exactly one live chain |
| Virtio.Disk.Complete | Kernel/Xv6/kernel/virtio_disk.c:235-265 | following the descriptors by their next fields and their NEXT and WRITE flags, the device finds and moves exactly what the request asked for |
| Virtio.Disk.IntrOne | Kernel/Xv6/kernel/virtio_disk.c:312-324 | releases the buffer of the posted head's own request, which was not released before; never panics |
| Virtio.Disk.Finish | Kernel/Xv6/kernel/virtio_disk.c:283-291 | exactly the request's three descriptors become free, without a panic |
| Virtio.RingPush | Kernel/Xv6/kernel/virtio_disk.c:271-277 | a new ring entry overwrites no pending one, also when the 16-bit index wraps |
| Virtio.RingPop | Kernel/Xv6/kernel/virtio_disk.c:312-314 | comparing 16-bit indices tells exactly whether something is pending, and what |
| VirtioRuns.Step | Kernel/Xv6/kernel/virtio_disk.c:215-327 | each move changes driver, device, platter and buffers exactly as its call does, appends exactly its event, and keeps the driver's invariant |
| VirtioRuns.RunAll | Kernel/Xv6/kernel/virtio_disk.c:215-327 | in every interleaving of submitters, device, interrupts and waking processes: no panic; the history has exactly the events of the moves; each request's b->disk is cleared at most once, after its own completion was posted |
| VirtioData.WriteLands | Kernel/Xv6/kernel/virtio_disk.c:215-291 | in every run a write puts on the platter what its buffer held when it was asked for |
| VirtioData.ReadArrives | Kernel/Xv6/kernel/virtio_disk.c:215-291 | in every run, when a reading process goes on, its buffer holds what the platter had when the device served it |
| VirtioData.LastWrite | Kernel/Xv6/kernel/virtio_disk.c:215-327 | in every run a block holds what the last write served for it was asked to write |
| VirtioData.BringToEnd | Kernel/Xv6/kernel/virtio_disk.c:283-327 | from any state of the driver any live request can be brought to its end |
| Sh.RoundTrip | Kernel/Xv6/user/sh.c:328-447 | for every tree with legal words and at most 9 per command, parsing the scanned printing gives the tree |
| Sh.PrintThenParse | Kernel/Xv6/user/sh.c:328-494 | parsecmd on the line printed from any legal tree returns that tree, with every word a C string in the buffer |
| ShGrammar.LineOfPrint | Kernel/Xv6/user/sh.c:345-447 | the grammar undoes parenthesised printing, whatever follows |
| ShText.ParseText | Kernel/Xv6/user/sh.c:266-494 | parsecmd on any line returns a tree exactly when the line can be read as a text of the shell, with white space anywhere between tokens, and then the tree is the meaning of every such reading; else it panics; words are C strings in the buffer |
| ShLines.CommandExact | Kernel/Xv6/user/sh.c:328-447 | the parser gives tree t exactly for the token lists of texts that mean t: redirections before, between and after words and after groups, all kept, nested in the order of the text; | binds tighter than & and ; |
| ShText.WritesExact | Kernel/Xv6/user/sh.c:266-309 | a line is a text, with some white space, exactly when its tokens are |
| ShText.LexOfSpelled | Kernel/Xv6/user/sh.c:266-309 | scanning undoes writing out tokens with any gaps, which may be empty except where two tokens would run together |
| Sh.LexOfRender | Kernel/Xv6/user/sh.c:266-309 | scanning undoes writing out tokens with one space after each |
| Sh.Parser.constructor | Kernel/Xv6/user/sh.c:328-334 | the cursor at the start of the line and its end at the NUL |
| Sh.Parser.Peek | Kernel/Xv6/user/sh.c:311-321 | tells whether the next token is one of the given symbols, consuming only space |
| Sh.Parser.GetToken | Kernel/Xv6/user/sh.c:266-309 | the next token, its span and the rest of the line |
| Sh.Parser.ParseRedirs | Kernel/Xv6/user/sh.c:375-398 | agrees with the grammar, panics included |
| Sh.Parser.ParseExec | Kernel/Xv6/user/sh.c:416-447 | agrees with the grammar: same tree with all its redirections, same rest, same panics; what the grammar accepts and means is `ShLines.CommandExact` |
| Sh.Parser.ParseBlock | Kernel/Xv6/user/sh.c:400-414 | agrees with the grammar |
| Sh.Parser.ParsePipe | Kernel/Xv6/user/sh.c:362-373 | agrees with the grammar |
| Sh.Parser.ParseLine | Kernel/Xv6/user/sh.c:345-360 | agrees with the grammar; ends because each token consumes input |
| Sh.Parser.NulTerminate | Kernel/Xv6/user/sh.c:449-494 | writes a NUL at the end of every word and nothing else |
| Sh.Parser.ParseCmd | Kernel/Xv6/user/sh.c:328-343 | the grammar's tree or a panic, and every word in the buffer is then a C string equal to its span |
| Sh.Terminated | Kernel/Xv6/user/sh.c:449-494 | no terminator falls inside another word |
| Grep.Match | Kernel/Xv6/user/grep.c:71-81 | true exactly when some substring, a prefix after ^ and reaching the end before $, is in the pattern's language |
| Grep.MatchHere | Kernel/Xv6/user/grep.c:83-95 | true exactly when some prefix is in the language; terminates |
| Grep.MatchStar | Kernel/Xv6/user/grep.c:97-105 | true exactly when some prefix is in the language of c* followed by the rest |
| Grep.StarStep | Kernel/Xv6/user/grep.c:97-105 | c* followed by a rest unfolds into none or one more of c |
| Pipe.Pipe.constructor | Kernel/Xv6/kernel/pipe.c:33-36 | an empty pipe with both ends open |
| Pipe.Pipe.WriteTurn | Kernel/Xv6/kernel/pipe.c:76-103 | exactly how many bytes one turn appends; it sleeps exactly on a full pipe with bytes left, a reader and no kill, fails exactly when killed or without reader, and whether it wakes readers |
| Pipe.Pipe.ReadTurn | Kernel/Xv6/kernel/pipe.c:105-130 | takes the oldest bytes in order; exactly how many are received and when a byte is lost; it sleeps exactly on an empty pipe that can still be written, unless killed |
| Pipe.Pipe.Close | Kernel/Xv6/kernel/pipe.c:58-74 | the page is freed once, when the second end closes |
| Pipe.WrappedTests | Kernel/Xv6/kernel/pipe.c:88-113 | the tests on 32-bit counters decide the true occupancy, also after they wrap |
| PipeRuns.RunAll | Kernel/Xv6/kernel/pipe.c:58-130 | in every interleaving of writers, readers and closers, with faulting copies, sleeps and wakeups, the code is the byte queue and every call comes to what it comes to there; the page is freed exactly once, when both ends are closed |
| PipeRuns.WriteSleeps | Kernel/Xv6/kernel/pipe.c:76-103 | in every run, each call of pipewrite, when it starts and whenever it goes on: sleeps exactly when bytes are left, the pipe is full, the read end open and it is not killed; what it has then appended |
| PipeRuns.ReadSleeps | Kernel/Xv6/kernel/pipe.c:105-130 | in every run, each call of piperead: sleeps exactly when the pipe is empty, the write end open and it is not killed; what it has then received |
| PipeRuns.EndOfFile | Kernel/Xv6/kernel/pipe.c:105-130 | in every run, once the write end is closed a read returns what is left, up to its count, and then nothing, and never sleeps |
| PipeRuns.NoLostWakeup | Kernel/Xv6/kernel/pipe.c:58-130 | in every run, a writer that sleeps unwoken faces a full pipe with a reader, and a reader that sleeps unwoken an empty one with a writer |
| PipeRuns.WriterEnds | Kernel/Xv6/kernel/pipe.c:76-103 | from any run, a sleeping write can be brought to its end by reads alone, with all its bytes written, or fails if the read end is closed |
| PipeRuns.ReaderEnds | Kernel/Xv6/kernel/pipe.c:105-130 | from any run, a sleeping read can be brought to its end in at most two events, with bytes unless the pipe is empty for good |
| PipeRuns.CallsInOrder | Kernel/Xv6/kernel/pipe.c:76-103 | in every run, the bytes of one pipewrite call are in the pipe once and in order across all its sleeps, whatever other writers do |
| PipeRuns.ReceivedExact | Kernel/Xv6/kernel/pipe.c:105-130 | in every run, readers receive exactly the bytes taken out, in order, if and only if no read lost one |
| PipeRuns.ReadLoses | Kernel/Xv6/kernel/pipe.c:120-126 | a run in which a byte is lost to a faulting read |
| Grind.DoRand | Kernel/Xv6/user/grind.c:16-40 | computes 16807 x mod (2^31 - 1) exactly, stays in [0, 0x7ffffffd], and can be undone |
| Grind.Schrage | Kernel/Xv6/user/grind.c:27-35 | Schrage's split gives the exact product modulo 2^31 - 1 with every intermediate within 31 bits |
| Grind.StepPermutes | Kernel/Xv6/user/grind.c:19-26 | the step is a permutation of 1 to 2^31 - 2, by an explicit inverse |
| Grind.StreamsStayApart | Kernel/Xv6/user/grind.c:16-40 | two different seeds never meet |

## Left out

- Processes, scheduling, spinlocks and memory fences: a section under one lock is one step, and sleeping is a result value.
- `exec.c`, `sysfile.c`, `syscall.c`, drivers other than virtio, boot and trap code: plumbing over the parts modelled.
- `kernel/malloc.c`, vaults, Shrimpy frames and `table.c`: unfinished features; the vault flag of an inode is 0.
- `iupdate`, `ialloc`, `iget`, `iput`: inodes are kept in memory, so their on-disk form, their reference counts and the freeing of unlinked files are not modelled.
- The link from `fs.c` to the log: files live on one flat block array, which is what the log modules prove log, cache and disk to be.
- Home blocks outside the log area: transactions carry only such blocks, as the layout that mkfs sets up ensures; header words are unbounded integers and one device is logged.
- LogProofs.StepInv: operations follow the discipline stated in log.c, changing a block only inside an operation and calling log_write before brelse; other callers are not modelled.
- Log.Log.ReadHead: a header with a count above LOGSIZE is not modelled, because write_head never writes one.
- Bio.Cache.Bread: waits for a buffer's sleep-lock are outside the method, which is called when the buffer is not locked; the interleavings are in the state machine.
- Umalloc.Heap.Free: only for blocks that are live; freeing anything else is undefined in the source.
- Umalloc.Heap.Morecore: a header written beyond the memory of the process may fault; the model goes on, as the code does when it does not.
- Umalloc.RunAll: stops at the first block that is not memory of the process, and requests are below 2^32 bytes, as malloc's argument is.
- Vm.Memory.Kfree: only pages that were handed out; the range and alignment panic is not modelled, because pages are numbers of the pool.
- Vm.Memory.Mappages: permissions contain R, W or X, as all callers' do; 64-bit wrap-around of va + size is not modelled.
- Vm.Memory.Uvmunmap: when frames are to be freed, mapped pages have frames of the pool, each its own; shared or foreign frames are not modelled.
- Vm.Memory.Uvmdealloc: as for Uvmunmap.
- Vm.Memory.Uvmfree: as for Uvmunmap, for the pages below sz.
- Vm.Memory.Uvmcopy: the parent's frames are pages of the pool.
- VmLife.Growproc: trampoline and trapframe mappings at the top of a space, where growth panics first, are not modelled.
- VmLife.RunAll: proc.c removes these mappings before uvmfree; calls name a space by its root page.
- UserMem.Copyout: the frames of user pages are pages of the pool.
- UserMem.Copyin: as for Copyout.
- UserMem.Copyinstr: as for Copyout.
- UserGrow.GrowThenUse: the pool does not have page 0, as in the kernel; walkaddr uses 0 for failure. Only whole pages above the old size are used.
- UserGrow.GuardStops: as for Copyout.
- PipeRuns.RunAll: a process's killed flag is read once for each stay inside the lock; the last descriptor of an end is closed only when no call on that end is under way, as the reference counts of file.c ensure.
- FileSys.Fs.constructor: mkfs also writes the first files; they are made by later calls here.
- FileSys.Fs.Writei: source and destination are kernel memory, so copies do not fail half way.
- FileSys.Fs.Balloc: called with metadata marked used, as in every state of the file system.
- Dirs.Dirlookup: the test that the inode is a directory is made by `Paths.Namex`, for which the directories are a parameter.
- Virtio.Disk.Submit: the caller holds the buffer, so no other request for it is under way; the 32-bit product of block number and sectors per block does not wrap.
- Virtio.Disk.Complete: the device always succeeds; a device error is the status panic.
- Redirections in `sh.c` are collected in order and wrapped around the command at its end, instead of wrapping as they are read; running commands is not modelled.
- `grep()` itself, which splits its input into lines, is not modelled.
