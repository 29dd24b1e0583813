# Verified models of the OSTEP simulators

The repository bundles simulators and small concurrent programs that teach operating systems. Each is a
state machine that hides a theorem. This project models sixteen of them in Dafny and proves those theorems
for all inputs, all runs and all choices a random number generator or a scheduler could make.

Code that updates objects is modelled by classes whose methods have the source's loops. Each such method is
proved against a function on values, and what the system promises is proved about that function. Concurrent
programs are modelled as interleaved steps. A random choice is an argument or an unconstrained result, limited
only as the code limits it.

| files | what they model | main results |
|---|---|---|
| Ssd, SsdGc, SsdRun, SsdLoss, SsdDrive | flash translation layer | a log-structured device with garbage collection is a plain map (FlashRun.RunIsExplained, FlashRun.ProvisionedDeviceIsAMap); exactly when a collection loses data (FlashGc.GcExactly) |
| PagePolicy, PageOrder, PageClock | page replacement | OPT is optimal (PagePolicy.OptIsOptimal) and UNOPT pessimal (PageOrder.UnoptIsPessimal); LRU's stack property (PagePolicy.LruInclusion); what each other policy gives up (PageOrder.FifoKeepsLatestLoads, PageClock.VictimIsFirstOver) |
| BoundedBuffer, BufferDrive | producers, consumers and main under one lock and two condition variables | no deadlock, exactly when (BoundedBuffer.DeadlockFreeExactly); what a finished run has done (BoundedBuffer.FinishedTally) |
| LfsTree, LfsLog, LfsOps, LfsRun, LfsCrash, LfsStale, LfsDangling, LfsLive, LfsDrive | log-structured file system | both lookup paths agree (LfsRun.ForcedAgree); the disk holds the tree as of the last checkpoint (LfsRun.UnforcedSaved); reference counts and path resolution (LfsRun.DoFsOk, LfsTree.CreateResolves); the live blocks are all that matters (LfsLive.OperationRenews, LfsLive.CleanedRun) |
| PageTable, PageTableOs | two-level page tables in flat memory | tables in memory are a map (PageTable.TranslateIsMap, PageTableOs.NewTranslations) that later allocations leave alone (PageTableOs.TranslationsSurvive) |
| Raid, RaidParity, RaidRequest | RAID 4 and 5 | placement is a bijection (Raid.BmapThenUnmap, Raid.UnmapThenBmap); partial writes keep parity and read enough (RaidParity.WriteIsRight, RaidParity.ReadsSuffice), also performed one operation after the other (RaidRequest.PerformedIsRight); reads and layouts (RaidRequest.ReadRequestIs, RaidRequest.SpreadOut) |
| Malloc | free-list allocator | the heap is always partitioned (Malloc.RunKeeps); freeing everything restores it (Malloc.FreeingAllRestores), exactly when (Malloc.ModeRestoresExactly) |
| Mlfq, MlfqIo, MlfqTimes | multi-level feedback queue | every job in exactly one place, and the loop ends (Mlfq.StepKeeps, Mlfq.Scheduler.Simulate); full allotment before demotion (Mlfq.FullAllotment, Mlfq.FullAllotmentFromBoost); the ticks between two I/Os (MlfqIo.IoEvery); when boosts come and what -S allows (MlfqTimes.BoostMeans, MlfqTimes.StayKeepsLevel) |
| Afs, AfsShared | callbacks and whole-file caching | caches refine sessions (Afs.RunRefines), and shared copies when files are opened more than once (AfsShared.RunShares); coherence (Afs.Coherent) |
| Vsfs, VsfsTree, VsfsNames, VsfsDrive | inode file system and its corruption for fsck | every operation keeps it consistent (VsfsTree.CreatedValid and its companions), its dot entries and what its files hold (VsfsNames.CreatedDots, VsfsNames.WrittenHolds); exactly which corruptions show (Vsfs.CorruptionShows) |
| RwLock | reader/writer lock | exclusion, freedom from deadlock, no lost update |
| Cpu, CpuLaws, CpuMachine | threads on one register file | save and restore refine threads with contexts of their own (Cpu.RunRefines); what instructions mean to programs (CpuLaws.DownLoop) |
| Fork, ForkRun | process tree | both reparenting rules keep a tree (Fork.LocalKeeps, Fork.RootKeeps); names never repeat (Fork.NamesDiffer); runs keep the tree, exactly when (ForkRun.RunKeepsExactly, ForkRun.SuppliedNamesKeep) |
| JobOrder | SJF, FIFO and round robin | SJF is optimal (JobOrder.Sjf); round robin's accounts add up and it is fair (JobOrder.RoundRobin) |
| Arith, Bitmaps, Collections, Sums | shared facts about products, sums, sets and lists | |

Where the code does not keep what it is for, the code stands and the project says exactly when it does:

- A collection ignores the result of its relocating writes (file-ssd/ssd.py:268) and then erases. It loses data
  exactly when the first block it cleans does not fit (FlashGc.GcExactly, FlashGc.CollectLoses), and a run stays whole
  exactly when that happens to none of its collections (FlashRun.RunAgreesExactly). FlashLoss.PageLost is a run of
  five commands in which a read shows the loss.
- A link logs only the destination parent's chunk of the inode map (file-lfs/lfs.py:552). The checkpoint misses
  the source inode's new version exactly when that inode is in another chunk (LfsOps.LinkMatches).
  LfsStale.StaleRun is a run from a new disk that gets there. A delete that then goes by the checkpoint keeps the tree
  exactly when the count it reads is right (LfsDangling.DeleteThroughDisk), which it is not in LfsDangling.DanglingRun.
- Walking a path checks the wrong inode for being a directory (file-lfs/lfs.py:370), so a file in the middle of
  a path ends in a failed assertion, and a link to a missing parent ends in an error. Both are the outcome Crash,
  which an operation has exactly when LfsCrash.Crashes holds of the tree (LfsCrash.CrashesExactly,
  LfsCrash.WalkAborts); LfsCrash.CreateUnderFile and LfsCrash.LinkToNowhere are runs that get there.
- A client that opens a file twice shares one cached copy (dist-afs/afs.py:401). Its second open sees the last
  closed version, leaves the first session its value, keeps its write, and counts both, each under a condition of
  its own (Afs.SecondOpenExactly); which one holds is decided by whether another client closed a version in between
  (Afs.SecondOpenInRun). Afs.SecondOpenLeaks, Afs.SecondOpenSeesWrite, Afs.SecondOpenLosesWrite and
  Afs.SecondOpenLosesFile are runs of the four failures. AfsShared.RunShares follows the copies through whole runs.
- Without a consumer and with more items than slots, the producers wait for ever (BoundedBuffer.DeadlockFreeExactly).
- Coalescing joins only neighbours in the list (vm-freespace/malloc.py:119), so pieces can stay apart. Freeing
  everything restores the heap over all runs exactly in address order with coalescing (Malloc.ModeRestoresExactly,
  with Malloc.PiecesStay as the run for each other mode); in any mode, the last free of a
  run does exactly when nothing else was free, or lists are coalesced and the list with the freed block is in address
  order (Malloc.LastFreeExactly).
- Forking with a name in use breaks the tree, and nothing else does (ForkRun.RunKeepsExactly); ForkRun.RootForksItself
  is such a run.

`dafny verify dfyconfig.toml` checks the whole project. Function and predicate bodies are the specification; the
comments beside them say what they stand for.

## Model

| member | source | states |
|---|---|---|
| FlashDevice.FullExactly | ostep-homework-master/file-ssd/ssd.py:127-131 | No free slot is left exactly when the log has no open page and every block is in use; and any block not in use means at least one block's worth of free slots. |
| FlashDevice.EraseUnmapped | ostep-homework-master/file-ssd/ssd.py:133-147 | Erasing a block that no logical page maps into changes the contents of no logical page. |
| FlashDevice.ClaimIsInvisible | ostep-homework-master/file-ssd/ssd.py:194-203 | Opening an unused block for writing, erasing it first if need be, changes the contents of no logical page. |
| FlashDevice.ScanEmptyIffFull | ostep-homework-master/file-ssd/ssd.py:205-214 | The search for a free block, from the current block round to it again, fails exactly when the device has no free slot. |
| FlashDevice.NextCursorKeeps | ostep-homework-master/file-ssd/ssd.py:205-214 | Finding the next page to write moves no data, spends no slot, and gives up exactly when no slot is free. |
| FlashDevice.PutKeepsBase | ostep-homework-master/file-ssd/ssd.py:222-232 | The page at the cursor is erased, so the assertion in the write holds; programming it keeps every block programmed from its first page on and spends one slot. |
| FlashDevice.PutIsUpdate | ostep-homework-master/file-ssd/ssd.py:222-232 | Programming the page at the cursor and remapping updates the map from logical pages to contents at the one page, even where the old copy is still on the device. |
| FlashDevice.LogWriteIsUpdate | ostep-homework-master/file-ssd/ssd.py:222-232 | A logged write either finds the device full, counts the failure and changes nothing, or updates exactly one logical page and spends exactly one free slot. |
| FlashDevice.LogWriteLiveness | ostep-homework-master/file-ssd/ssd.py:222-232 | After a logged write the new copy is live, the old copy of that logical page is dead, and every other page is live as before. |
| FlashGc.LiveInExactly | ostep-homework-master/file-ssd/ssd.py:250-259 | The list of live pages of a block holds each live page once and no other; it is as long as the block exactly when all pages are live. |
| FlashGc.RelocateAll | ostep-homework-master/file-ssd/ssd.py:261-268 | With enough free slots, copying the live pages of a victim block elsewhere loses nothing, counts no failure, and leaves none of them live in the block. |
| FlashGc.CollectKeeps | ostep-homework-master/file-ssd/ssd.py:243-272 | Cleaning one block whose live pages fit in the free slots keeps every logical page's contents, frees the block, and does not lower the number of free slots. |
| FlashGc.CollectLoses | ostep-homework-master/file-ssd/ssd.py:261-272 | When the live pages do not fit, the result of the relocating write is ignored and the block is erased: some logical page is left pointing to an erased page. |
| FlashGc.SpareBlockFits | ostep-homework-master/file-ssd/ssd.py:234-288 | A pass that starts with at least one block not in use always has room for the first block it cleans. |
| FlashGc.GcKeeps | ostep-homework-master/file-ssd/ssd.py:234-288 | If the first block a pass cleans fits, the whole pass keeps every logical page, no relocation fails, and the free slots do not fall. |
| FlashGc.GcLoses | ostep-homework-master/file-ssd/ssd.py:234-288 | If it does not fit, the forward and reverse maps disagree at the end of the pass. |
| FlashGc.GcExactly | ostep-homework-master/file-ssd/ssd.py:234-288 | A pass keeps the maps in agreement if and only if the live pages of the first block it cleans fit in the free slots. |
| FlashLoss.PageLost | ostep-homework-master/file-ssd/ssd.py:261-272 | A run in which a page is lost: four writes and a read on a new device of two blocks of two pages with three logical pages, some collection of which starts without room for the first block it cleans; the read of a page written and never trimmed returns the erased contents, which no map replies. |
| FlashGc.GcMakesRoom | ostep-homework-master/file-ssd/ssd.py:234-288 | After a pass with a spare block, either the low mark is met or nearly every block in use is paid for by distinct mapped logical pages. |
| FlashRun.ExecIsMapStep | ostep-homework-master/file-ssd/ssd.py:297-329 | Read, write and trim act on the device as the operations on a map from logical page to contents, with the same replies, and a write fails only on a full device. |
| FlashRun.UpkeepIsInvisible | ostep-homework-master/file-ssd/ssd.py:290-295 | Upkeep changes no contents and counts no failed write, when no collection starts or the first block it cleans has room for its live pages elsewhere. |
| FlashRun.RunAgreesExactly | ostep-homework-master/file-ssd/ssd.py:575-613 | Over any command list, the forward and reverse maps agree after every command and its upkeep if and only if each collection has room for the first block it cleans. |
| FlashRun.SpareFits | ostep-homework-master/file-ssd/ssd.py:234-288 | Starting each collection with a spare block is enough for that. |
| FlashRun.RunIsExplained | ostep-homework-master/file-ssd/ssd.py:575-613 | Over any command list in which each collection has room for the first block it cleans, all replies are those of a plain map: a read returns the last successful write, or the uninitialized failure after a trim or before any write. |
| FlashRun.FailuresAreRefusals | ostep-homework-master/file-ssd/ssd.py:211-226 | When every collection fits its first victim, the failures counted over a run are the writes it refused, and no others. |
| FlashRun.ProvisionedNeverFull | ostep-homework-master/file-ssd/ssd.py:575-613 | With four spare blocks and high and low marks below the number of blocks by one and two, the spare-block condition holds in every run and no write ever finds the device full. |
| FlashRun.ProvisionedDeviceIsAMap | ostep-homework-master/file-ssd/ssd.py:27-125 | A fresh device so provisioned answers every command list as a plain map that is never full. |
| FlashDrive.Ssd.constructor | ostep-homework-master/file-ssd/ssd.py:27-125 | A new device is empty and in the state every later result starts from. |
| FlashDrive.Ssd.BlocksInUse | ostep-homework-master/file-ssd/ssd.py:127-131 | The loop returns the number of blocks marked in use. |
| FlashDrive.Ssd.PhysicalErase | ostep-homework-master/file-ssd/ssd.py:133-147 | The loop erases every page of the block and no other page, and marks the block not in use. |
| FlashDrive.Ssd.IsBlockFree | ostep-homework-master/file-ssd/ssd.py:194-203 | Answers whether the block is in use, and opens it for writing when it is not. |
| FlashDrive.Ssd.GetCursor | ostep-homework-master/file-ssd/ssd.py:205-214 | The two scanning loops reach the specified next cursor, or -1 when no block is free. |
| FlashDrive.Ssd.WriteLogging | ostep-homework-master/file-ssd/ssd.py:222-232 | The in-place write has the effect and the reply of the specified logged write. |
| FlashDrive.Ssd.LivePagesOf | ostep-homework-master/file-ssd/ssd.py:250-255 | The loop collects exactly the live pages of a block, in order. |
| FlashDrive.Ssd.CollectBlock | ostep-homework-master/file-ssd/ssd.py:239-272 | Cleans the block when it is neither current, erased nor fully live, and otherwise leaves everything alone. |
| FlashDrive.Ssd.GarbageCollect | ostep-homework-master/file-ssd/ssd.py:234-288 | The loop over blocks, with its early exit at the low mark, is the specified pass, including where the next pass starts. |
| FlashDrive.Ssd.Upkeep | ostep-homework-master/file-ssd/ssd.py:290-295 | Collects exactly at the high mark; given room for the first victim the contents seen by reads are unchanged. |
| FlashDrive.Ssd.SaveBlock | ostep-homework-master/file-ssd/ssd.py:171-175 | The saved list holds each valid page of the block with its contents. |
| FlashDrive.Ssd.RestoreBlock | ostep-homework-master/file-ssd/ssd.py:178-181 | Replaying the list puts back every valid page but the one being written and touches nothing outside the block. |
| FlashDrive.Ssd.WriteDirect | ostep-homework-master/file-ssd/ssd.py:166-186 | Direct mode: reading the block, erasing it and writing it back updates one logical page and keeps all the others. |
| FlashDrive.Ssd.WriteIdeal | ostep-homework-master/file-ssd/ssd.py:188-192 | Ideal mode: overwriting in place updates one logical page and keeps all the others. |
| FlashDrive.Ssd.Write | ostep-homework-master/file-ssd/ssd.py:319-329 | Rejects an illegal address and counts it; otherwise updates the map in the device's mode. |
| FlashDrive.Ssd.Read | ostep-homework-master/file-ssd/ssd.py:308-317 | Returns the contents the map has for the address, or the illegal or the uninitialized failure. |
| FlashDrive.Ssd.Trim | ostep-homework-master/file-ssd/ssd.py:297-306 | Removes the address from the map, or fails as a map without it would. |
| FlashDrive.Ssd.RunCommands | ostep-homework-master/file-ssd/ssd.py:575-613 | The command loop with upkeep after each command gives the specified replies; in direct and ideal mode they are those of a plain map that is never full. |
| PagePolicy.NextUseIsFirst | ostep-homework-master/vm-beyondphys-policy/paging-policy.py:207-213 | The time computed for a page is its first reference from then on, or the end of the list when there is none. |
| PagePolicy.LastUseIsLast | ostep-homework-master/vm-beyondphys-policy/paging-policy.py:142-150 | The time used to compare pages by recency is the last reference before now. |
| PagePolicy.WhenReferenced | ostep-homework-master/vm-beyondphys-policy/paging-policy.py:207-213 | The look-ahead loop returns the next reference to a page, or the length of the list. |
| PagePolicy.OptVictim | ostep-homework-master/vm-beyondphys-policy/paging-policy.py:198-221 | Picks a page whose next use is latest, the last such in memory. |
| PagePolicy.UnoptVictim | ostep-homework-master/vm-beyondphys-policy/paging-policy.py:223-241 | Picks a page whose next use is soonest, the first such in memory. |
| PagePolicy.ChooseVictim | ostep-homework-master/vm-beyondphys-policy/paging-policy.py:159-241 | Every policy's choice is the victim that policy is defined by; RAND may take any page, and CLOCK the page a scan finds, with the counts the scan leaves. |
| PagePolicy.IndexOf | ostep-homework-master/vm-beyondphys-policy/paging-policy.py:145-153 | Finds the first position of a page, or reports a miss exactly when it is absent. |
| PagePolicy.Reference | ostep-homework-master/vm-beyondphys-policy/paging-policy.py:142-252 | One pass of the loop hits exactly when the page is in memory, moves memory as the policy demands, and under CLOCK keeps the counts. |
| PagePolicy.Simulate | ostep-homework-master/vm-beyondphys-policy/paging-policy.py:113-270 | The whole loop performs a run of the policy and its counters are that run's hits and misses, which add up to the references. |
| PagePolicy.PolicyRunIsCacheRun | ostep-homework-master/vm-beyondphys-policy/paging-policy.py:142-252 | Every policy's run loads only the page asked for and never holds more pages than the cache size. |
| PagePolicy.OptIsOptimal | ostep-homework-master/vm-beyondphys-policy/paging-policy.py:198-221 | Belady's theorem: on every reference list OPT misses no more often than any demand-loading run of the same or a smaller cache, whatever its victims. |
| PagePolicy.OptBeatsEveryPolicy | ostep-homework-master/vm-beyondphys-policy/paging-policy.py:159-241 | Hence OPT misses no more often than FIFO, LRU, MRU, UNOPT, RAND and CLOCK. |
| PagePolicy.LruInclusion | ostep-homework-master/vm-beyondphys-policy/paging-policy.py:145-162 | At every point of the same reference list, LRU's memory at a smaller size is a suffix of its memory at a larger one. |
| PagePolicy.LruMissesFall | ostep-homework-master/vm-beyondphys-policy/paging-policy.py:243-248 | Hence LRU never misses more often with a larger cache. |
| PagePolicy.LruKeepsMostRecent | ostep-homework-master/vm-beyondphys-policy/paging-policy.py:145-162 | LRU's memory holds exactly the most recently used distinct pages, oldest first. |
| PageOrder.FifoKeepsLatestLoads | ostep-homework-master/vm-beyondphys-policy/paging-policy.py:159-162 | At every point of a FIFO run memory holds the pages loaded last, in the order of their loads; a load is a reference to a page not in memory. |
| PageOrder.FifoEvictsFirstLoaded | ostep-homework-master/vm-beyondphys-policy/paging-policy.py:161-162 | The page FIFO gives up was loaded before every other page in memory. |
| PageOrder.MruEvictsLastUsed | ostep-homework-master/vm-beyondphys-policy/paging-policy.py:163-164 | The page MRU gives up was used after every other page in memory. |
| PageOrder.UnoptIsPessimal | ostep-homework-master/vm-beyondphys-policy/paging-policy.py:223-241 | No way to manage a cache of the same size that gives up one page at a time, and only when full, misses more often than UNOPT. |
| PageOrder.EveryPolicyBeatsUnopt | ostep-homework-master/vm-beyondphys-policy/paging-policy.py:159-241 | Hence every policy misses at most as often as UNOPT. |
| PagePolicy.ClockVictim | ostep-homework-master/vm-beyondphys-policy/paging-policy.py:178-193 | CLOCK's loop of random draws ends whatever is drawn, at the victim of a scan with those draws. |
| PageClock.ScanLooks | ostep-homework-master/vm-beyondphys-policy/paging-policy.py:178-188 | A scan goes on exactly as long as no page was drawn more often than its count, and leaves each count less the draws of its page. |
| PageClock.VictimIsFirstOver | ostep-homework-master/vm-beyondphys-policy/paging-policy.py:178-188 | The victim is the first page drawn more often than its count; every other page was drawn at most as often as its count. |
| PageClock.ScanEnds | ostep-homework-master/vm-beyondphys-policy/paging-policy.py:178-188 | More draws than the sum of the counts, whichever they are, end the scan. |
| PageClock.AnyPageMayGo | ostep-homework-master/vm-beyondphys-policy/paging-policy.py:178-188 | Any page in memory is the victim for some draws. |
| PageClock.ClockRunIsRun | ostep-homework-master/vm-beyondphys-policy/paging-policy.py:142-260 | A run of CLOCK with its counts is a run in which any page may go, so what holds of all policies holds of it. |
| PageClock.CountsAre | ostep-homework-master/vm-beyondphys-policy/paging-policy.py:191-260 | Throughout a run exactly the pages in memory have counts, each within the limit, and the page referenced last has at least one unless the limit is less. |
| PageClock.CountsAreUses | ostep-homework-master/vm-beyondphys-policy/paging-policy.py:254-260 | A count is at most the number of references to its page so far, and exactly that, up to the limit, as long as the memory is not full. |
| PageClock.ScansAreShort | ostep-homework-master/vm-beyondphys-policy/paging-policy.py:178-188 | So every scan of a run has found its victim after at most limit times pages plus one draws. |
| BoundedBuffer.RingFill | ostep-homework-master/threads-cv/main-two-cvs-while.c:22-28 | With room, the slot at fill_ptr is marked empty, so the check does not fire, and filling keeps the ring in step with the sequence of all items put. |
| BoundedBuffer.RingGet | ostep-homework-master/threads-cv/main-two-cvs-while.c:30-37 | With an item there, the slot at use_ptr holds the oldest item not yet taken, so the check does not fire and items leave in the order they were put. |
| BoundedBuffer.ControlStep | ostep-homework-master/threads-cv/main-two-cvs-while.c:39-73 | Every step of every thread keeps mutual exclusion, the guards established by the two waiting loops, the creation and join phases, and the ring. |
| BoundedBuffer.WakeupStep | ostep-homework-master/threads-cv/main-two-cvs-while.c:44-68 | Every step keeps the counting invariant over waiters and awake threads that rules out lost wake-ups. |
| BoundedBuffer.LedgerStep | ostep-homework-master/threads-cv/main-two-cvs-while.c:39-54 | Every step keeps the ledger of values put: each producer value at most once, and one end marker per completed pass of main. |
| BoundedBuffer.SharesStep | ostep-homework-master/threads-cv/main-two-cvs-while.c:56-73 | Every step keeps each consumer's account: its count, its last item, and no end marker before its last item. |
| BoundedBuffer.InvInit | ostep-homework-master/threads-cv/main-common.c:63-94 | The whole invariant holds before any thread has been created. |
| BoundedBuffer.InvStep | ostep-homework-master/threads-cv/main-two-cvs-while.c:39-73 | The whole invariant is kept by every step, spurious wake-ups included. |
| BoundedBuffer.InvRuns | ostep-homework-master/threads-cv/main-common.c:86-118 | The whole invariant holds at the end of every run, and neither ensure check has fired. |
| BoundedBuffer.MarkersTaken | ostep-homework-master/threads-cv/main-common.c:101-112 | End markers taken never exceed those put, and equal them when the buffer is empty. |
| BoundedBuffer.NoDeadlock | ostep-homework-master/threads-cv/main-two-cvs-while.c:39-73 | In every state with the invariant where main has not finished, some thread can step without a spurious wake-up. |
| BoundedBuffer.NoReachableDeadlock | ostep-homework-master/threads-cv/main-common.c:86-118 | No run reaches a deadlock or a failed check when there is a consumer, or the buffer holds every item. |
| BoundedBuffer.DeadlockFreeExactly | ostep-homework-master/threads-cv/main-common.c:86-118 | The program is free of deadlock if and only if there is a consumer or the buffer holds every item. |
| BoundedBuffer.NeverFinishes | ostep-homework-master/threads-cv/main-common.c:96-99 | Without a consumer and with more items than slots main never gets past its joins. |
| BoundedBuffer.SomeRunStops | ostep-homework-master/threads-cv/main-common.c:86-118 | From every reachable state the threads can be followed to a state where none can step. |
| BoundedBuffer.RunsAreBounded | ostep-homework-master/threads-cv/main-common.c:86-118 | A run is no longer than a bound fixed by the configuration plus four steps for each spurious wake-up in it. |
| BoundedBuffer.FinishedDrained | ostep-homework-master/threads-cv/main-common.c:114-118 | When main has finished, every item put has been taken and each consumer has taken its end marker. |
| BoundedBuffer.FinishedTally | ostep-homework-master/threads-cv/main-common.c:114-118 | When main has finished, each produced value was consumed exactly once, each consumer got exactly one end marker and it was its last item, and the returned counts add up to producers times loops. |
| BufferDrive.SharedBuffer.constructor | ostep-homework-master/threads-cv/main-common.c:73-78 | The new buffer is an empty queue. |
| BufferDrive.SharedBuffer.DoFill | ostep-homework-master/threads-cv/main-two-cvs-while.c:22-28 | Appends to the queue held in the ring, or the check fires, exactly when the ring is full; and does to the buffer what the protocol's step does. |
| BufferDrive.SharedBuffer.DoGet | ostep-homework-master/threads-cv/main-two-cvs-while.c:30-37 | Takes the head of the queue, or the check fires, exactly when the ring is empty; and does to the buffer what the protocol's step does. |
| LfsTree.AddEntryFails | ostep-homework-master/file-lfs/lfs.py:404-425 | Adding a directory entry fails exactly when the directory has all its blocks and every slot names something. |
| LfsTree.AddEntryLookup | ostep-homework-master/file-lfs/lfs.py:404-425 | After adding a new name, that name looks up to its inode and every other name as before. |
| LfsTree.CreatedOk | ostep-homework-master/file-lfs/lfs.py:428-493 | Create and mkdir keep every inode's reference count equal to the number of live entries naming it, with dot entries counted, and all directories well formed. |
| LfsTree.CreatedEdges | ostep-homework-master/file-lfs/lfs.py:428-493 | They change the lookup of exactly the new name, and give a new directory only its dot entries. |
| LfsTree.LinkedOk | ostep-homework-master/file-lfs/lfs.py:506-557 | Link keeps the same invariant. |
| LfsTree.LinkedEdges | ostep-homework-master/file-lfs/lfs.py:506-557 | Link changes the lookup of exactly the new name. |
| LfsTree.WrittenOk | ostep-homework-master/file-lfs/lfs.py:559-610 | Write keeps the same invariant and changes no lookup at all. |
| LfsTree.WrittenIs | ostep-homework-master/file-lfs/lfs.py:559-610 | A write puts in as many blocks as there are and fit, answers that number, grows the size to the end of what it wrote and never shrinks it, and leaves the other blocks and the count; a file has no block beyond its size and no size beyond its eight blocks. |
| LfsTree.WriteIs | ostep-homework-master/file-lfs/lfs.py:559-610 | By path: a write that answers n has put its first n blocks into the file the path leads to, from the offset on, with that size, and changed nothing else. |
| LfsTree.DeletedOk | ostep-homework-master/file-lfs/lfs.py:612-656 | Delete keeps the same invariant: the inode is freed exactly with its last entry. |
| LfsTree.DeletedEdges | ostep-homework-master/file-lfs/lfs.py:612-656 | Delete changes the lookup of exactly the removed name. |
| LfsTree.CreateResolves | ostep-homework-master/file-lfs/lfs.py:428-493 | Every path that does not pass through the new name resolves as before a create. |
| LfsTree.LinkResolves | ostep-homework-master/file-lfs/lfs.py:506-557 | Every path that does not pass through the new name resolves as before a link. |
| LfsTree.DeleteResolves | ostep-homework-master/file-lfs/lfs.py:612-656 | Every path that does not pass through the removed name resolves as before a delete. |
| LfsTree.CreatedPath | ostep-homework-master/file-lfs/lfs.py:428-493 | The path given to a successful create resolves to the new inode. |
| LfsTree.LinkedPath | ostep-homework-master/file-lfs/lfs.py:506-557 | The destination path of a successful link resolves to the source inode. |
| LfsTree.DeletedPath | ostep-homework-master/file-lfs/lfs.py:612-656 | The path given to a successful delete no longer resolves. |
| LfsTree.WalkResolves | ostep-homework-master/file-lfs/lfs.py:358-377 | The parent that walking a path ends in is where the path without its last part resolves, along a way that avoids the last entry. |
| LfsCrash.WalkAborts | ostep-homework-master/file-lfs/lfs.py:358-377 | Walking an absolute path aborts if and only if some proper prefix of it leads to a file, and ends in a parent if and only if the path without its last part leads to a directory; then it finds what the whole path leads to. |
| LfsCrash.CreateCrashes | ostep-homework-master/file-lfs/lfs.py:428-493 | A create or mkdir ends in the failed assertion if and only if its path runs through a file. |
| LfsCrash.LinkCrashes | ostep-homework-master/file-lfs/lfs.py:506-557 | A link ends in a failure of the program if and only if the source path runs through a file, or leads to a file while the destination's parent is not a directory. |
| LfsCrash.WriteCrashes | ostep-homework-master/file-lfs/lfs.py:559-610 | A write ends in the failed assertion if and only if its path runs through a file. |
| LfsCrash.DeleteCrashes | ostep-homework-master/file-lfs/lfs.py:612-656 | So does a delete. |
| LfsCrash.CrashesExactly | ostep-homework-master/file-lfs/lfs.py:428-656 | For every operation on the log, with and without forced checkpoints: it crashes if and only if the tree in memory satisfies the condition on its paths. |
| LfsCrash.CreateUnderFile | ostep-homework-master/file-lfs/lfs.py:368-377 | From a new disk, creating /a and then /a/b crashes. |
| LfsCrash.LinkToNowhere | ostep-homework-master/file-lfs/lfs.py:530-557 | From a new disk, creating /a and then linking it under a missing directory crashes. |
| LfsTree.StartOk | ostep-homework-master/file-lfs/lfs.py:61-116 | The new file system, with only a root directory, has the invariant. |
| LfsLog.Frozen | ostep-homework-master/file-lfs/lfs.py:269-272 | While blocks are only appended and block 0 is left alone, the tree reached from block 0 stays exactly the same. |
| LfsLog.LogKeeps | ostep-homework-master/file-lfs/lfs.py:269-272 | Appending a block that points only below its own address keeps both trees and the ordering of pointers. |
| LfsLog.LogChunkKeeps | ostep-homework-master/file-lfs/lfs.py:379-387 | Logging a chunk of the inode map and recording it in the checkpoint in memory changes neither tree. |
| LfsLog.UpdateImapKeeps | ostep-homework-master/file-lfs/lfs.py:379-387 | Updating the map for a list of inodes brings exactly their chunks up to date, once each, and changes neither tree. |
| LfsLog.SyncKeeps | ostep-homework-master/file-lfs/lfs.py:317-320 | Writing the checkpoint makes the tree on disk the tree in memory, when all chunks are up to date, and does not change the latter. |
| LfsLog.MatchingMap | ostep-homework-master/file-lfs/lfs.py:322-343 | When all chunks are up to date, the map read through the checkpoint is the map in memory. |
| LfsLog.LookupsAgree | ostep-homework-master/file-lfs/lfs.py:322-343 | After a checkpoint with all chunks up to date, the disk path and the memory path find the same address for every inode, and the assertions on the disk path hold. |
| LfsOps.AddMakes | ostep-homework-master/file-lfs/lfs.py:404-425 | The directory block made on disk for a new entry is the one the tree's operation asks for, and both fail together. |
| LfsOps.ChangedNode | ostep-homework-master/file-lfs/lfs.py:452-461 | The new version of a directory inode with the changed block reads as the changed directory. |
| LfsOps.CreateEnds | ostep-homework-master/file-lfs/lfs.py:452-493 | The blocks logged by create turn the tree in memory into the created tree, and the tree on disk as well when checkpoints are forced; otherwise the tree on disk stays. |
| LfsOps.LinkEnds | ostep-homework-master/file-lfs/lfs.py:530-557 | The same for link, which keeps the chunks up to date when the source inode shares the destination parent's chunk. |
| LfsOps.LinkBreaks | ostep-homework-master/file-lfs/lfs.py:551-552 | A link whose source inode is in another chunk leaves that chunk out of date. |
| LfsOps.LinkAddresses | ostep-homework-master/file-lfs/lfs.py:551-556 | After such a link the checkpoint still names the source chunk's old version, while memory names the inode written last. |
| LfsOps.LinkMatches | ostep-homework-master/file-lfs/lfs.py:551-552 | From a state with all chunks up to date, a link keeps them so if and only if the source inode and the destination parent share a chunk. |
| LfsStale.LinkLeavesStale | ostep-homework-master/file-lfs/lfs.py:551-556 | With forced checkpoints, both lookups then disagree on the source inode, and the tree on disk keeps the file with the reference count it had before the link. |
| LfsStale.StaleRun | ostep-homework-master/file-lfs/lfs.py:551-556 | A run that gets there from a new disk: sixteen files are created in inode order, and a link of the last, whose inode is the first of the second chunk, leaves the chunks out of date; forced checkpoints then give the file one reference fewer on disk than in memory. |
| LfsLive.LiveIsEnough | ostep-homework-master/file-lfs/lfs.py:155-184 | Whatever the dead blocks hold, memory stands for the same tree, and so does the disk when its checkpoint and chunks are up to date. |
| LfsLive.OperationRenews | ostep-homework-master/file-lfs/lfs.py:155-184 | Every block an operation logs is live right after it, and no operation makes a dead block live again. |
| LfsLive.DeadStaysDead | ostep-homework-master/file-lfs/lfs.py:155-184 | Over any run a block that is dead stays dead. |
| LfsLive.CleanedRun | ostep-homework-master/file-lfs/lfs.py:155-184 | After any run from a new disk the dead blocks may be overwritten with anything: the tree is still what the commands made it. |
| LfsDangling.DeletedAsExactly | ostep-homework-master/file-lfs/lfs.py:612-656 | A delete that takes the file for another version of it keeps the reference counts right if and only if that version has the file's count; the other names stay in any case. |
| LfsDangling.DeleteThroughDisk | ostep-homework-master/file-lfs/lfs.py:612-656 | On the log, with the directory up to date: a delete that reads the file through a checkpoint with an old version of it leaves a consistent tree if and only if that version has the count in memory; one with count 1 frees the inode and leaves all its other names. |
| LfsDangling.DanglingRun | ostep-homework-master/file-lfs/lfs.py:612-656 | A run that gets there, with forced checkpoints: after the sixteen creates and the link, /x is found through the checkpoint, and its delete frees the inode that the first name still names. |
| LfsOps.WriteEnds | ostep-homework-master/file-lfs/lfs.py:580-610 | The same for write: new data blocks, a new inode and its chunk. |
| LfsOps.DeleteEnds | ostep-homework-master/file-lfs/lfs.py:625-656 | The same for delete, whether or not the last reference goes. |
| LfsRun.DoFsOk | ostep-homework-master/file-lfs/lfs.py:428-656 | Every operation on the tree, successful or not, keeps the reference-count invariant. |
| LfsRun.DoFollows | ostep-homework-master/file-lfs/lfs.py:428-656 | Every operation on the log has the outcome of the operation on the tree and ends in a log that holds the tree's result. |
| LfsRun.StepKeeps | ostep-homework-master/file-lfs/lfs.py:428-660 | One operation keeps the log's invariant, only appends besides block 0, and moves the tree on disk exactly when it writes a checkpoint. |
| LfsRun.MemoryIsTree | ostep-homework-master/file-lfs/lfs.py:428-660 | Over any run of operations, links across chunks included, the log in memory holds the tree's run, with its reference counts; without forcing and without a sync the disk keeps its tree. |
| LfsRun.RunIsTree | ostep-homework-master/file-lfs/lfs.py:428-660 | Over any run of operations whose links share a chunk the log in memory holds the tree's run and the disk holds the tree as of the last checkpoint. |
| LfsRun.InitInv | ostep-homework-master/file-lfs/lfs.py:61-116 | The four blocks of a new disk hold the starting tree and agree with the memory. |
| LfsRun.ForcedAgree | ostep-homework-master/file-lfs/lfs.py:322-343 | With forced checkpoints, after any run whose links share a chunk, both lookup paths give the same address for every inode and the tree on disk is the tree in memory. |
| LfsRun.UnforcedSaved | ostep-homework-master/file-lfs/lfs.py:317-320 | Without forcing, after any run whose links share a chunk, the tree on disk is the one at the last explicit sync. |
| LfsRun.UnforcedKeeps | ostep-homework-master/file-lfs/lfs.py:317-320 | With no sync among the operations that is the tree the disk started with. |
| LfsDrive.LFS.constructor | ostep-homework-master/file-lfs/lfs.py:61-116 | Builds the starting disk, checkpoint and inode map. |
| LfsDrive.LFS.DetermineLiveness | ostep-homework-master/file-lfs/lfs.py:155-184 | The loops mark exactly the live blocks. |
| LfsDrive.LFS.UpdateImapOf | ostep-homework-master/file-lfs/lfs.py:379-387 | The loop logs each affected chunk once, in order of first mention. |
| LfsDrive.LFS.CrSync | ostep-homework-master/file-lfs/lfs.py:317-320 | Overwrites block 0 with the checkpoint and nothing else. |
| LfsDrive.LFS.GetInodeFromInumber | ostep-homework-master/file-lfs/lfs.py:322-343 | Returns the inode block of an allocated inode by either path; no assertion in it can fail. |
| LfsDrive.LFS.LookupName | ostep-homework-master/file-lfs/lfs.py:345-356 | The loops over blocks and slots find what the directory maps the name to, or -1. |
| LfsDrive.LFS.WalkTo | ostep-homework-master/file-lfs/lfs.py:358-377 | The loop over path parts ends where the tree's walk ends, aborting where an assertion would. |
| LfsDrive.LFS.FindMatchingDirSlot | ostep-homework-master/file-lfs/lfs.py:393-402 | Returns the position of the first slot with the name, or -1 when there is none. |
| LfsDrive.LFS.AddEntryTo | ostep-homework-master/file-lfs/lfs.py:404-425 | Returns the block and size of the directory with the entry added, or fails. |
| LfsDrive.LFS.AllocateInode | ostep-homework-master/file-lfs/lfs.py:274-298 | Takes a free inode, the first when allocation is sequential, and returns -1 exactly when none is free. |
| LfsDrive.LFS.FileCreate | ostep-homework-master/file-lfs/lfs.py:428-503 | The method is the specified create or mkdir, with a free inode as its choice; it gives up for lack of inodes only when all are taken. |
| LfsDrive.LFS.FileLink | ostep-homework-master/file-lfs/lfs.py:506-557 | The method is the specified link. |
| LfsDrive.LFS.FileWrite | ostep-homework-master/file-lfs/lfs.py:559-610 | The method is the specified write and returns the number of blocks that fitted. |
| LfsDrive.LFS.FileDelete | ostep-homework-master/file-lfs/lfs.py:612-656 | The method is the specified delete, and once the path has been walked no assertion in it fails. |
| LfsDrive.LFS.SyncAll | ostep-homework-master/file-lfs/lfs.py:658-660 | Sync is the specified checkpoint write. |
| PageTable.DirEntry | ostep-homework-master/vm-smalltables/paging-multilevel-translate.py:109-118 | A directory slot read from memory is valid exactly when the process has that table, and then gives its frame. |
| PageTable.TableEntry | ostep-homework-master/vm-smalltables/paging-multilevel-translate.py:99-107 | A table slot read from memory is valid exactly when the page is mapped, and then gives its frame. |
| PageTable.TranslateIsMap | ostep-homework-master/vm-smalltables/paging-multilevel-translate.py:146-158 | Translation through the bytes in memory is the map: -1 without a table, -2 without a page, otherwise the mapped frame joined with the offset. |
| PageTable.FieldsAreDigits | ostep-homework-master/vm-smalltables/paging-multilevel-translate.py:69-80 | The three fields of an address are its digits to the base 32: the offset is the remainder by 32, the table index that of the quotient, and the directory index the rest. |
| PageTable.EntryFields | ostep-homework-master/vm-smalltables/paging-multilevel-translate.py:99-125 | An entry is its frame number, and 128 more when valid; the initial entry is 127. |
| PageTable.NoSharing | ostep-homework-master/vm-smalltables/paging-multilevel-translate.py:164-188 | No frame belongs to two pages, and no page's frame is a directory or a table. |
| PageTable.NewDirKeeps | ostep-homework-master/vm-smalltables/paging-multilevel-translate.py:164-169 | Giving a process a new directory keeps memory and maps in agreement. |
| PageTable.NewTableKeeps | ostep-homework-master/vm-smalltables/paging-multilevel-translate.py:126-138 | Allocating a table and entering it in the directory keeps them in agreement. |
| PageTable.NewPageKeeps | ostep-homework-master/vm-smalltables/paging-multilevel-translate.py:139-144 | Entering a page in its table keeps them in agreement. |
| PageTable.DataWriteKeeps | ostep-homework-master/vm-smalltables/paging-multilevel-translate.py:160-162 | Writing any byte of a data frame keeps them in agreement. |
| PageTableOs.OS.constructor | ostep-homework-master/vm-smalltables/paging-multilevel-translate.py:41-80 | A new system has no process, no page and no used frame. |
| PageTableOs.OS.FindFree | ostep-homework-master/vm-smalltables/paging-multilevel-translate.py:82-89 | Takes a free frame and counts it; the assertion fails exactly when all frames are used. |
| PageTableOs.OS.InitPageDir | ostep-homework-master/vm-smalltables/paging-multilevel-translate.py:91-97 | The loop sets every slot of the frame to the invalid entry and changes no other byte. |
| PageTableOs.OS.GetPageDirEntry | ostep-homework-master/vm-smalltables/paging-multilevel-translate.py:109-118 | Returns the valid bit, the frame and the address of the directory slot. |
| PageTableOs.OS.GetPageTableEntry | ostep-homework-master/vm-smalltables/paging-multilevel-translate.py:99-107 | Returns the valid bit, the frame and the address of the table slot. |
| PageTableOs.OS.Translation | ostep-homework-master/vm-smalltables/paging-multilevel-translate.py:146-158 | The method computes the specified translation for any address of a known process. |
| PageTableOs.OS.AllocVirtualPage | ostep-homework-master/vm-smalltables/paging-multilevel-translate.py:126-144 | Enters the page, allocating a table first when there is none; fails exactly when a table is needed and no frame is left. |
| PageTableOs.OS.FillPage | ostep-homework-master/vm-smalltables/paging-multilevel-translate.py:160-162 | The loop writes only the given data frame. |
| PageTableOs.OS.AllocOne | ostep-homework-master/vm-smalltables/paging-multilevel-translate.py:175-187 | Maps one new page, keeps all other pages and their bytes, and uses one frame, or two with a new table. |
| PageTableOs.OS.ProcAlloc | ostep-homework-master/vm-smalltables/paging-multilevel-translate.py:164-188 | Succeeds exactly when the directory, the pages and the distinct tables they need fit in the free frames, and then maps exactly those pages. |
| PageTableOs.NewTranslations | ostep-homework-master/vm-smalltables/paging-multilevel-translate.py:164-188 | After an allocation an address of the process translates to a frame exactly when its page was allocated, with remainder by 32 that of the address; to -1 exactly when no allocated page shares its table, and to -2 exactly when one does but its own page was not allocated. |
| PageTableOs.SharesTable | ostep-homework-master/vm-smalltables/paging-multilevel-translate.py:69-80 | Sharing a table is, in numbers, agreeing in all but the last ten bits. |
| PageTableOs.AddressesApart | ostep-homework-master/vm-smalltables/paging-multilevel-translate.py:146-158 | Different addresses, of one process or of two, never translate to the same byte of memory. |
| PageTableOs.TranslationsSurvive | ostep-homework-master/vm-smalltables/paging-multilevel-translate.py:164-188 | An allocation for one process changes no translation of another and no byte those translations reach. |
| PageTableOs.NinetyFiveFit | ostep-homework-master/vm-smalltables/paging-multilevel-translate.py:164-188 | On a fresh system, up to 95 pages always fit in the 128 frames. |
| Raid.DataDiskInverse | ostep-homework-master/file-raid/raid.py:243-273 | A data chunk is never placed on its stripe's parity disk, and its place in the stripe can be recovered from its disk, in RAID 4 and both RAID 5 layouts. |
| Raid.ChunkOnInverse | ostep-homework-master/file-raid/raid.py:243-273 | Every disk of a stripe other than the parity disk holds exactly one of its data chunks. |
| Raid.BmapThenUnmap | ostep-homework-master/file-raid/raid.py:243-278 | Every block is mapped to a non-parity place from which the block can be recovered. |
| Raid.UnmapThenBmap | ostep-homework-master/file-raid/raid.py:243-278 | Every non-parity place holds a block, so the mapping is a bijection. |
| Raid.ParityOfStripe | ostep-homework-master/file-raid/raid.py:280-283 | A block's stripe by division is the stripe of the row it is placed in, so both find the same parity disk. |
| Raid.PiecesTile | ostep-homework-master/file-raid/raid.py:333-354 | The pieces of a request tile it from first to last block, one stripe each. |
| Raid.TilesCoverOnce | ostep-homework-master/file-raid/raid.py:333-354 | Every block of the request lies in exactly one piece. |
| Raid.LastStripe | ostep-homework-master/file-raid/raid.py:335-340 | A piece reaches the end of the request exactly in the last stripe, so the loop over stripes ends with nothing left. |
| Raid.RaidDriver.DoPartialWrite | ostep-homework-master/file-raid/raid.py:286-320 | The loops issue the planned reads for the chosen way to compute parity, then the data writes and one parity write per row. |
| Raid.RaidDriver.Enqueue45 | ostep-homework-master/file-raid/raid.py:323-354 | The loops issue exactly the planned reads, or the plans of all pieces of a write in order. |
| RaidRequest.ParityMovesLeft | ostep-homework-master/file-raid/raid.py:243-273 | RAID 4 keeps parity on the last disk; in RAID 5 it starts there and moves one disk to the left with each stripe. |
| RaidRequest.LeftToRight | ostep-homework-master/file-raid/raid.py:243-273 | In RAID 4 and the asymmetric layout the data of a stripe lies on the disks from left to right. |
| RaidRequest.RoundAndRound | ostep-homework-master/file-raid/raid.py:243-273 | In the symmetric layout each chunk lies on the disk after that of the chunk before it, from stripe to stripe as well. |
| RaidRequest.SpreadOut | ostep-homework-master/file-raid/raid.py:243-273 | So blocks lie on different disks when their chunks differ and are fewer than the disks apart. |
| RaidRequest.ReadRequestIs | ostep-homework-master/file-raid/raid.py:329-332 | A read request of n blocks issues n reads, the k-th of them at the place, off the parity disk, that holds block addr + k. |
| RaidRequest.WriteRequestIs | ostep-homework-master/file-raid/raid.py:333-354 | A write request writes the places of its blocks and of the parity of the rows with a block in the request, and no other place. |
| RaidRequest.PerformedIsRight | ostep-homework-master/file-raid/raid.py:333-354 | The operations of a write request, performed one after the other with new data for data places and the exclusive or of the new row for parity places, store the data, change no other block and keep the parity of every row. |
| RaidRequest.PiecesPerform | ostep-homework-master/file-raid/raid.py:333-354 | The disks after them are those the pieces leave, each of which computes its parity from what it read. |
| RaidRequest.PieceReads | ostep-homework-master/file-raid/raid.py:286-321 | A piece of n blocks reads n blocks and the parities of its rows, or the rest of the stripe; with chunks of one block, whichever is less. It writes n blocks and those parities. |
| RaidParity.XorDelta | ostep-homework-master/file-raid/raid.py:289-299 | Parity updated by the changes alone is parity computed afresh. |
| RaidParity.NewParityIsRight | ostep-homework-master/file-raid/raid.py:286-320 | From a row with right parity, the parity written, by either method, is that of the row after the write. |
| RaidParity.ReadsSuffice | ostep-homework-master/file-raid/raid.py:289-310 | The parity written depends only on the blocks the plan reads and the new data. |
| RaidParity.OffsetsDistinct | ostep-homework-master/file-raid/raid.py:313-318 | The list of rows for parity names no row twice. |
| RaidParity.ParityPlaces | ostep-homework-master/file-raid/raid.py:313-320 | The plan writes the parity of exactly those rows of its stripe in which it writes data. |
| RaidParity.AfterBlock | ostep-homework-master/file-raid/raid.py:313-316 | After a piece is written, each of its blocks holds the new data and every other block is unchanged. |
| RaidParity.PieceKeepsParity | ostep-homework-master/file-raid/raid.py:286-320 | Writing a piece keeps every row's parity the exclusive or of its data. |
| RaidParity.WriteIsRight | ostep-homework-master/file-raid/raid.py:323-354 | A whole write request keeps all parity right, stores the new data in its blocks and changes no other block. |
| RaidParity.LostWordRecovered | ostep-homework-master/file-raid/raid.py:286-320 | With right parity, any one lost data block of a row is recovered from the parity and the others. |
| Malloc.InvInit | ostep-homework-master/vm-freespace/malloc.py:16-43 | The new heap is one free entry and nothing allocated. |
| Malloc.NeedRounds | ostep-homework-master/vm-freespace/malloc.py:51-60 | Rounding gives the least multiple of the alignment that is not below the request. |
| Malloc.FreshAddress | ostep-homework-master/vm-freespace/malloc.py:45-48 | The address taken from a free entry is never already allocated, so the assertion in addToMap holds. |
| Malloc.ChosenIs | ostep-homework-master/vm-freespace/malloc.py:70-80 | FIRST takes the first entry that fits, BEST the first of the smallest that fit, WORST the first of the largest. |
| Malloc.TakeKeeps | ostep-homework-master/vm-freespace/malloc.py:82-93 | Splitting or removing the chosen entry keeps free entries and allocated blocks a partition of the heap into positive pieces, and the order. |
| Malloc.SortSorts | ostep-homework-master/vm-freespace/malloc.py:108-116 | The three sorting orders sort and lose no entry. |
| Malloc.SortedMeans | ostep-homework-master/vm-freespace/malloc.py:108-116 | The orders are by ascending address, ascending size and descending size. |
| Malloc.SortStable | ostep-homework-master/vm-freespace/malloc.py:108-116 | Entries with equal keys keep their order, as Python's sort promises. |
| Malloc.CoverMerge | ostep-homework-master/vm-freespace/malloc.py:119-130 | Coalescing covers each address exactly as often as before. |
| Malloc.MergeSpaced | ostep-homework-master/vm-freespace/malloc.py:119-130 | Coalescing a list in address order leaves no two entries that touch. |
| Malloc.TouchingIsSorted | ostep-homework-master/vm-freespace/malloc.py:98-116 | When the whole heap is free, the entries each touch the next in the list exactly when they are in address order. |
| Malloc.MergeToOne | ostep-homework-master/vm-freespace/malloc.py:119-130 | Coalescing leaves a single entry exactly when the entries each touch the next in the list. |
| Malloc.ReleaseKeeps | ostep-homework-master/vm-freespace/malloc.py:98-133 | Freeing keeps the partition in every order and with or without coalescing, and in address order with coalescing keeps free entries from touching. |
| Malloc.StepKeeps | ostep-homework-master/vm-freespace/malloc.py:50-133 | Every malloc and free keeps the invariant. |
| Malloc.RunKeeps | ostep-homework-master/vm-freespace/malloc.py:50-133 | It holds after any sequence of them from a new heap. |
| Malloc.AllocatedApart | ostep-homework-master/vm-freespace/malloc.py:82-93 | No two allocated blocks overlap. |
| Malloc.AllFree | ostep-homework-master/vm-freespace/malloc.py:98-133 | In address order with coalescing, a heap with nothing allocated is the one entry it started as. |
| Malloc.FreeingAllRestores | ostep-homework-master/vm-freespace/malloc.py:98-133 | After any run that leaves nothing allocated, the heap is the new heap. |
| Malloc.LastFreeExactly | ostep-homework-master/vm-freespace/malloc.py:98-133 | In any order and mode, freeing the only allocated block restores the heap to one entry if and only if nothing else was free, or lists are coalesced and the list with the block put back is in address order. |
| Malloc.RestoredExactly | ostep-homework-master/vm-freespace/malloc.py:98-133 | The same for the last free of any run: it ends in the new heap exactly under that condition. |
| Malloc.ModeRestoresExactly | ostep-homework-master/vm-freespace/malloc.py:98-133 | An order and mode restore the heap over every run of every heap that leaves nothing allocated if and only if the order is by address and lists are coalesced. |
| Malloc.PiecesStay | ostep-homework-master/vm-freespace/malloc.py:98-133 | In every order other than coalescing by address this fails: a run of two blocks of a small heap, all freed at the end, that does not end in the new heap. |
| Malloc.Allocator.Search | ostep-homework-master/vm-freespace/malloc.py:62-80 | The loop finds the policy's choice, or -1 exactly when no entry is large enough, and counts the entries looked at. |
| Malloc.Allocator.Malloc | ostep-homework-master/vm-freespace/malloc.py:50-96 | Fails exactly when no entry fits, and then changes nothing; otherwise the block is new and of the rounded size. |
| Malloc.Allocator.CoalesceList | ostep-homework-master/vm-freespace/malloc.py:119-130 | The loop with its running entry computes the specified merge. |
| Malloc.Allocator.FreeBlock | ostep-homework-master/vm-freespace/malloc.py:98-133 | Returns -1 and changes nothing for an unknown address; otherwise removes exactly that block and keeps the invariant. |
| Mlfq.StartPlaced | ostep-homework-master/cpu-sched-mlfq/mlfq.py:133-174 | At the start every job waits, exactly once, for its start time. |
| Mlfq.BoostKeeps | ostep-homework-master/cpu-sched-mlfq/mlfq.py:230-251 | A boost keeps every job in exactly one place: one queue slot at its priority, one pending wake-up, or finished. |
| Mlfq.CalledWaits | ostep-homework-master/cpu-sched-mlfq/mlfq.py:254-258 | Every wake-up taken from the list is for a job that was waiting for that very time. |
| Mlfq.WakeKeeps | ostep-homework-master/cpu-sched-mlfq/mlfq.py:254-263 | Waking a job, at either end of its queue, keeps every job in exactly one place. |
| Mlfq.WakeListKeeps | ostep-homework-master/cpu-sched-mlfq/mlfq.py:254-263 | So does the whole list of wake-ups of one time. |
| Mlfq.NoAbort | ostep-homework-master/cpu-sched-mlfq/mlfq.py:273-275 | The job at the head of the chosen queue has that priority and has time left, so neither abort is reached. |
| Mlfq.RunKeeps | ostep-homework-master/cpu-sched-mlfq/mlfq.py:277-357 | Running it for a tick, with its end, its I/O and the end of its slice, keeps every job in exactly one place and uses one unit of its time. |
| Mlfq.BoostSkipsNone | ostep-homework-master/cpu-sched-mlfq/mlfq.py:234-239 | No queued job is doing I/O, so a boost moves every job of the lower queues. |
| Mlfq.WakeKeepsOrder | ostep-homework-master/cpu-sched-mlfq/mlfq.py:254-263 | A job that wakes goes to the end of its queue, or to the front after I/O with iobump, and all others keep their order. |
| Mlfq.RunKeepsOrder | ostep-homework-master/cpu-sched-mlfq/mlfq.py:299-357 | The running job keeps its place until it ends, does I/O or uses up its slice, and then goes last wherever it is put; all others keep their order. |
| Mlfq.IdleWaits | ostep-homework-master/cpu-sched-mlfq/mlfq.py:265-270 | An idle tick happens only while some wake-up is still to come. |
| MlfqIo.StepIo | ostep-homework-master/cpu-sched-mlfq/mlfq.py:224-357 | A pass leaves a job's task and its later wake-ups alone or runs it for a tick; a job that runs had none, and gets one if and only if it does I/O, at the time the I/O is done. |
| MlfqIo.IoEvery | ostep-homework-master/cpu-sched-mlfq/mlfq.py:309-328 | In any run: from its start, or from a time at which it waits for an I/O, a job with an I/O frequency runs exactly that many ticks before it waits again; in between it does not wait, and then it waits until the I/O time after the tick has passed, and for nothing else. |
| MlfqIo.NoIoNoWait | ostep-homework-master/cpu-sched-mlfq/mlfq.py:309-328 | A job without one never waits again once it has begun. |
| MlfqIo.WaitLasts | ostep-homework-master/cpu-sched-mlfq/mlfq.py:254-263 | A job that waits does not run before its wake-up comes, and still waits for it when it comes. |
| MlfqIo.WaitEnds | ostep-homework-master/cpu-sched-mlfq/mlfq.py:254-263 | Then it is put into the queue of its level in that very pass. |
| MlfqIo.StartOnBeat | ostep-homework-master/cpu-sched-mlfq/mlfq.py:149-176 | At the start every job waits for its start time, with all its ticks to run. |
| MlfqTimes.BoostsAtMultiples | ostep-homework-master/cpu-sched-mlfq/mlfq.py:230-232 | A boost comes at every multiple of its period but the start. |
| MlfqTimes.NoBoostBetween | ostep-homework-master/cpu-sched-mlfq/mlfq.py:230-232 | None comes in between, at the start, or without a period. |
| MlfqTimes.BoostMeans | ostep-homework-master/cpu-sched-mlfq/mlfq.py:230-251 | At a boost every unfinished job has the top level's quantum and allotment in full, and the lower queues are empty. |
| MlfqTimes.NoBoostMeans | ostep-homework-master/cpu-sched-mlfq/mlfq.py:230-263 | At any other time a job keeps its level and what is left of its slices until it runs. |
| MlfqTimes.FinishedStays | ostep-homework-master/cpu-sched-mlfq/mlfq.py:224-357 | A finished job is never touched again. |
| MlfqTimes.TimesAre | ostep-homework-master/cpu-sched-mlfq/mlfq.py:286-307 | In any run: the first tick of a job writes down its time, the last one the time after it, neither changes later, and before there is none. |
| MlfqTimes.ReachedMarked | ostep-homework-master/cpu-sched-mlfq/mlfq.py:254-317 | In any run the unfinished jobs marked as doing I/O are those that have begun and wait. |
| MlfqTimes.StepSlice | ostep-homework-master/cpu-sched-mlfq/mlfq.py:309-357 | Without a boost, at any level and with or without -S: the last tick of a slice is followed by a full slice, of the same level or the next; any other leaves one tick less, or with -S, when it ends in an I/O, the full allotment. |
| MlfqTimes.StayKeepsLevel | ostep-homework-master/cpu-sched-mlfq/mlfq.py:317-322 | With -S a job that does I/O before its slice is used up never leaves its level, however long it runs without a boost. |
| Mlfq.StepKeeps | ostep-homework-master/cpu-sched-mlfq/mlfq.py:224-357 | One pass of the loop keeps the invariant and either uses a unit of work or brings the last wake-up nearer, so the loop ends. |
| Mlfq.StepCredit | ostep-homework-master/cpu-sched-mlfq/mlfq.py:230-357 | Without -S, once the boost there may be has been made, a pass leaves a job's budget alone or uses one tick of it, and above the lowest level the job is demoted exactly when the budget runs out. |
| Mlfq.BoostCredit | ostep-homework-master/cpu-sched-mlfq/mlfq.py:230-357 | A pass that begins with a boost leaves an unfinished job at the top level with the full quantum times allotment, less the tick it may run in that very pass; if that was all, it is demoted. |
| Mlfq.CreditIsTime | ostep-homework-master/cpu-sched-mlfq/mlfq.py:277-357 | Over any stay at one level above the lowest, time used equals budget used. |
| Mlfq.StayEnds | ostep-homework-master/cpu-sched-mlfq/mlfq.py:277-357 | A job with some of its budget at a level spent stays while the ticks it ran are fewer than the level's, and is demoted one level exactly with the tick that makes them equal. |
| Mlfq.FullAllotment | ostep-homework-master/cpu-sched-mlfq/mlfq.py:330-357 | From entering a level above the lowest a job runs fewer than quantum times allotment ticks there, and is demoted exactly with the tick that makes them equal, if no boost comes. |
| Mlfq.FullAllotmentFromBoost | ostep-homework-master/cpu-sched-mlfq/mlfq.py:230-357 | The same counted from a boost, including the tick of the boost's own pass. |
| Mlfq.Scheduler.constructor | ostep-homework-master/cpu-sched-mlfq/mlfq.py:133-220 | Builds the starting state. |
| Mlfq.Scheduler.BoostQueuesInPlace | ostep-homework-master/cpu-sched-mlfq/mlfq.py:234-239 | The loops move every job not doing I/O to the top queue in order and empty the others. |
| Mlfq.Scheduler.FindQueue | ostep-homework-master/cpu-sched-mlfq/mlfq.py:18-26 | Returns the highest nonempty queue, or -1 when all are empty. |
| Mlfq.Scheduler.Tick | ostep-homework-master/cpu-sched-mlfq/mlfq.py:273-357 | The body for a runnable job is the specified tick. |
| Mlfq.Scheduler.Turn | ostep-homework-master/cpu-sched-mlfq/mlfq.py:224-357 | The loop body is the specified pass. |
| Mlfq.Scheduler.Simulate | ostep-homework-master/cpu-sched-mlfq/mlfq.py:224-357 | The loop terminates with every job finished and no time left, reaching no abort. |
| Afs.StartRefines | ostep-homework-master/dist-afs/afs.py:100-107 | The start has no open session and empty caches. |
| Afs.OpenRefines | ostep-homework-master/dist-afs/afs.py:401-410 | An open sees the file as last closed, from the server or from a valid cached copy. |
| Afs.WriteRefines | ostep-homework-master/dist-afs/afs.py:460-471 | A write changes only the writer's own session. |
| Afs.CloseRefines | ostep-homework-master/dist-afs/afs.py:472-481 | Closing publishes a written file, calls back every other cached copy, and drops an invalid unused entry. |
| Afs.StepRefines | ostep-homework-master/dist-afs/afs.py:422-491 | Every action does to caches and server what it does to sessions; a read returns its session's value and no assertion fails. |
| Afs.RunRefines | ostep-homework-master/dist-afs/afs.py:422-491 | Under any interleaving of clients all reads return what whole-file sessions would return. |
| Afs.Coherent | ostep-homework-master/dist-afs/afs.py:109-133 | After any run a cached copy that is valid and clean equals the server's contents. |
| Afs.SessionsAreIsolated | ostep-homework-master/dist-afs/afs.py:422-491 | Within a session the value is that at open or the client's own last write, whatever others do. |
| Afs.FilesAreLastClosed | ostep-homework-master/dist-afs/afs.py:119-133 | The server holds the value of the last close of a written session. |
| Afs.OpenSeesLastClosed | ostep-homework-master/dist-afs/afs.py:401-410 | A fresh open sees the most recently closed version. |
| Afs.ReadSeesSession | ostep-homework-master/dist-afs/afs.py:450-459 | A cached read within a session returns the value at open or the own last write. |
| Afs.SecondOpenLeaks | ostep-homework-master/dist-afs/afs.py:401-410 | With a file open twice by one client the promise fails: a run in which a second open changes what the first session reads. |
| Afs.SecondOpenExactly | ostep-homework-master/dist-afs/afs.py:401-410 | A second open of a file in use: it sees the server's version if and only if the copy was called back or equals it; the first session keeps its value if and only if the copy was not called back or equals it; an unclosed write is kept, and both opens are counted, if and only if the copy was not called back. |
| Afs.ClosesAfterSecondOpen | ostep-homework-master/dist-afs/afs.py:472-481 | The two closes that follow: the first session's write reaches the server if and only if the copy was not called back, and the count returns to 0 if and only if it was not. |
| Afs.ValidUntilPublished | ostep-homework-master/dist-afs/afs.py:119-133 | Over any run within a session, the copy stays valid if and only if no other client closes a written session of the file. |
| Afs.SecondOpenInRun | ostep-homework-master/dist-afs/afs.py:401-410 | Over any run between the two opens, whether another client closed a new version decides what the second open sees, what the first session keeps, and whether both are counted. |
| Afs.SecondOpenReplaces | ostep-homework-master/dist-afs/afs.py:401-410 | When one did, the caches from then on are those of a system where the second session has taken the place of the first. |
| Afs.FirstCloseDrops | ostep-homework-master/dist-afs/afs.py:226-229 | And the first close then takes the file from the session still open, so that its read fails, if and only if yet another version was closed and neither session wrote since. |
| Afs.SecondOpenSeesWrite | ostep-homework-master/dist-afs/afs.py:401-410 | A run in which a second open sees the first session's unclosed write. |
| Afs.SecondOpenLosesWrite | ostep-homework-master/dist-afs/afs.py:401-410 | A run in which it loses a write: the server keeps the other client's version. |
| Afs.SecondOpenLosesFile | ostep-homework-master/dist-afs/afs.py:472-481 | A run in which the first close removes the file under the second session. |
| AfsShared.StartShares | ostep-homework-master/dist-afs/afs.py:100-107 | At the start nothing is open. |
| AfsShared.StepShares | ostep-homework-master/dist-afs/afs.py:422-491 | With files open any number of times at a client, every action does to caches and server what it does to shared copies that are counted; a read returns the shared value and no assertion fails. |
| AfsShared.RunShares | ostep-homework-master/dist-afs/afs.py:422-491 | So under any interleaving all reads return what shared copies would return, over runs with any opens whose other actions are of opens that are counted. |
| AfsShared.OpensShare | ostep-homework-master/dist-afs/afs.py:401-410 | Until the client closes or another client closes a new version, all opens by the client share the value of the first or its last write, and all are counted. |
| AfsShared.SingleRunsAreSessions | ostep-homework-master/dist-afs/afs.py:422-491 | With every file open at most once at a time at a client, shared copies are the sessions. |
| Afs.ClientCache.Invalidate | ostep-homework-master/dist-afs/afs.py:209-224 | Marks a cached file invalid and ignores one that is not cached. |
| Afs.ClientCache.CheckValid | ostep-homework-master/dist-afs/afs.py:226-229 | Drops the entry exactly when it is invalid and unused. |
| Afs.Server.constructor | ostep-homework-master/dist-afs/afs.py:77-107 | No client has a callback. |
| Afs.Server.Get | ostep-homework-master/dist-afs/afs.py:109-117 | Returns the contents and remembers the client once. |
| Afs.Server.Put | ostep-homework-master/dist-afs/afs.py:119-133 | The loop invalidates the file at exactly the other clients remembered for it. |
| Afs.Server.GetFile | ostep-homework-master/dist-afs/afs.py:401-410 | The open's fetch and count are the specified ones. |
| Afs.Server.PutFile | ostep-homework-master/dist-afs/afs.py:412-416 | The store is the specified one. |
| Afs.Server.CloseFile | ostep-homework-master/dist-afs/afs.py:472-481 | The close is the specified one. |
| Afs.Server.Act | ostep-homework-master/dist-afs/afs.py:422-491 | One action is the specified step, and a read returns the cached value. |
| Vsfs.NewFileOk | ostep-homework-master/file-implementation/vsfs.py:326-374 | Creating a file keeps the disk consistent: bitmaps match inodes and blocks, each used block has one owner of its type, reference counts equal entry counts. |
| Vsfs.NewDirOk | ostep-homework-master/file-implementation/vsfs.py:326-374 | Creating a directory keeps the disk consistent, with its dot entries and the parent's count. |
| Vsfs.NewLinkOk | ostep-homework-master/file-implementation/vsfs.py:298-324 | Linking keeps the disk consistent. |
| Vsfs.NewDataOk | ostep-homework-master/file-implementation/vsfs.py:376-393 | Writing a file's block keeps the disk consistent. |
| Vsfs.DeletedOk | ostep-homework-master/file-implementation/vsfs.py:265-296 | Deleting a name keeps the disk consistent, freeing inode and block exactly with the last name. |
| Vsfs.BitShows | ostep-homework-master/file-journaling/fsck.py:535-546 | Flipping a bitmap bit, or making an orphan inode, makes a consistent disk inconsistent. |
| Vsfs.InodeShows | ostep-homework-master/file-journaling/fsck.py:547-591 | Changing a reference count, a block address or a type makes it inconsistent. |
| Vsfs.BadEntryShows | ostep-homework-master/file-journaling/fsck.py:592-603 | Pointing an entry at an unallocated inode, or at none, makes it inconsistent. |
| Vsfs.RenameOk | ostep-homework-master/file-journaling/fsck.py:604-615 | Renaming an entry leaves it consistent. |
| Vsfs.CorruptionShows | ostep-homework-master/file-journaling/fsck.py:525-619 | A corruption leaves a consistent disk consistent if and only if it is the rename. |
| VsfsTree.CreatedValid | ostep-homework-master/file-implementation/vsfs.py:430-458 | Creating keeps the disk and the lists of names in agreement: each listed name has its entry in its parent, with the right inode and type. |
| VsfsTree.LinkedValid | ostep-homework-master/file-implementation/vsfs.py:403-428 | So does linking. |
| VsfsTree.WrittenValid | ostep-homework-master/file-implementation/vsfs.py:460-468 | So does appending. |
| VsfsTree.WithoutValid | ostep-homework-master/file-implementation/vsfs.py:265-296 | So does deleting; the other names of the file stay. |
| VsfsTree.WithoutTracked | ostep-homework-master/file-implementation/vsfs.py:265-296 | Deleting one name leaves every other name where it was. |
| VsfsTree.InodeStays | ostep-homework-master/file-implementation/vsfs.py:272-280 | An inode is freed only when no other listed name needs it. |
| VsfsTree.StartValid | ostep-homework-master/file-implementation/vsfs.py:185-213 | The new file system is consistent and lists only its root. |
| VsfsNames.StartDots | ostep-homework-master/file-implementation/vsfs.py:185-213 | In the root of a new file system "." and ".." lead to the root. |
| VsfsNames.CreatedDots | ostep-homework-master/file-implementation/vsfs.py:326-374 | Creating keeps, in every directory, "." leading to the directory and ".." to its parent, and gives them to a new directory. |
| VsfsNames.LinkedDots | ostep-homework-master/file-implementation/vsfs.py:298-324 | Linking keeps them. |
| VsfsNames.WrittenDots | ostep-homework-master/file-implementation/vsfs.py:376-393 | So does appending. |
| VsfsNames.WithoutDots | ostep-homework-master/file-implementation/vsfs.py:265-296 | So does deleting: a file is not a dot entry. |
| VsfsNames.CreatedHolds | ostep-homework-master/file-implementation/vsfs.py:326-374 | A new file holds nothing, and the others hold what they held. |
| VsfsNames.LinkedHolds | ostep-homework-master/file-implementation/vsfs.py:298-324 | A new name of a file holds what the file holds, and the others hold what they held. |
| VsfsNames.WrittenHolds | ostep-homework-master/file-implementation/vsfs.py:376-393 | What is appended is seen under every name of the file, and under no other. |
| VsfsNames.WithoutHolds | ostep-homework-master/file-implementation/vsfs.py:265-296 | Deleting a name leaves what the other names hold, those of the same file included. |
| VsfsNames.RoomIs | ostep-homework-master/file-implementation/vsfs.py:303-308 | A directory takes another name exactly when it lists fewer than thirty-two. |
| VsfsNames.FlippedBit | ostep-homework-master/file-journaling/fsck.py:535-546 | Flipping a bitmap bit gives a bit, wrong for its inode or block, and no other bit of either bitmap is wrong. |
| VsfsNames.CountOff | ostep-homework-master/file-journaling/fsck.py:547-562 | A damaged reference count is one above or one below the entries it counts, as the coin says, and no other count is off. |
| VsfsNames.OrphanIs | ostep-homework-master/file-journaling/fsck.py:563-571 | An orphan is an inode of the type asked for with no bit and no block, counting one entry where none names it. |
| VsfsDrive.Bitmap.Alloc | ostep-homework-master/file-implementation/vsfs.py:33-39 | Takes a free bit and counts it; fails exactly when none is free. |
| VsfsDrive.Bitmap.Free | ostep-homework-master/file-implementation/vsfs.py:41-44 | Frees a taken bit; the assertion holds. |
| VsfsDrive.Bitmap.FirstFree | ostep-homework-master/file-journaling/fsck.py:59-66 | Finds the first free bit, or -1 when there is none. |
| VsfsDrive.Bitmap.CorruptBit | ostep-homework-master/file-journaling/fsck.py:41-45 | Flips one bit and leaves the count as it was. |
| VsfsDrive.Fs.constructor | ostep-homework-master/file-implementation/vsfs.py:185-213 | Builds the starting state. |
| VsfsDrive.Fs.DirEntryExists | ostep-homework-master/file-implementation/vsfs.py:125-130 | The loop finds whether a name is in the block. |
| VsfsDrive.Fs.DoCreate | ostep-homework-master/file-implementation/vsfs.py:326-374 | Creates with a free inode, and a free block for a directory, or fails for one of the source's four reasons and changes nothing. |
| VsfsDrive.Fs.DoLink | ostep-homework-master/file-implementation/vsfs.py:298-324 | Fails exactly when the parent has no room or has the name, and otherwise links. |
| VsfsDrive.Fs.DoAppend | ostep-homework-master/file-implementation/vsfs.py:376-393 | Fails when the file has its block or no block is free, and otherwise writes a free block. |
| VsfsDrive.Fs.DoDelete | ostep-homework-master/file-implementation/vsfs.py:265-296 | Removes exactly the file's name and its entry. |
| VsfsDrive.Fs.CorruptDisk | ostep-homework-master/file-journaling/fsck.py:525-619 | The method performs the chosen corruption, and the disk stays consistent exactly for the rename. |
| Cpu.StartRefines | ostep-homework-master/threads-locks/x86.py:962-987 | At the start the machine refines threads that own their contexts. |
| Cpu.SwitchKeeps | ostep-homework-master/threads-locks/x86.py:925-932 | Saving, switching and restoring on an interrupt or yield keeps every thread's context. |
| Cpu.HaltSwitchKeeps | ostep-homework-master/threads-locks/x86.py:905-912 | Switching without saving after a halt keeps every unfinished thread's context. |
| Cpu.TurnRefines | ostep-homework-master/threads-locks/x86.py:885-932 | One instruction with its interrupt processing is one step of the running thread on its own context and the shared memory, followed by a choice of the next thread. |
| Cpu.RunRefines | ostep-homework-master/threads-locks/x86.py:878-932 | A whole run of the single register file refines a machine where each thread owns its program counter, registers and condition codes. |
| Cpu.PushThenPop | ostep-homework-master/threads-locks/x86.py:365-383 | Pushing one register and popping into another is a move that leaves the stack pointer alone and memory outside the stack word unchanged. |
| Cpu.CallThenReturn | ostep-homework-master/threads-locks/x86.py:353-360 | A return right after a call comes back behind the call with all registers as before. |
| Cpu.ExchangeTwice | ostep-homework-master/threads-locks/x86.py:269-274 | Exchange swaps register and memory word, and twice restores both. |
| CpuLaws.AddThenSub | ostep-homework-master/threads-locks/x86.py:239-266 | Subtracting undoes adding, of numbers and of registers. |
| CpuLaws.NegTwice | ostep-homework-master/threads-locks/x86.py:239-266 | Negating twice changes nothing, and adding the negated register is subtracting. |
| CpuLaws.MulIsAdds | ostep-homework-master/threads-locks/x86.py:239-266 | Multiplying by n is adding n times, from 0. |
| CpuLaws.ConditionsOrder | ostep-homework-master/threads-locks/x86.py:285-299 | The six conditions are an order of the operands, in which the second is greater when something positive was added to it. |
| CpuLaws.TestsAgree | ostep-homework-master/threads-locks/x86.py:301-314 | The three forms of test set the conditions alike. |
| CpuLaws.StoreThenLoad | ostep-homework-master/threads-locks/x86.py:206-236 | What is stored at an address is loaded from it, and nothing else in memory changes. |
| CpuLaws.LeaPoints | ostep-homework-master/threads-locks/x86.py:206-236 | The register a lea fills points to the address, which moves with its value and first register by one and with its second register by the scale. |
| CpuLaws.TicketsDiffer | ostep-homework-master/threads-locks/x86.py:277-282 | Two fetch-and-adds of one get tickets of their own, in order, and both count. |
| CpuLaws.PushThenDrop | ostep-homework-master/threads-locks/x86.py:365-383 | A pop drops what was pushed. |
| CpuLaws.PushAddress | ostep-homework-master/threads-locks/x86.py:370-376 | Pushing a memory operand pushes its address. |
| CpuLaws.DownLoop | ostep-homework-master/threads-locks/x86.py:239-350 | The loop sub, test, jgt runs as often as its register says and leaves it at 0 and everything else alone. |
| CpuLaws.UpLoop | ostep-homework-master/threads-locks/x86.py:239-350 | The loop add, test, jlt runs as often as its register is below its limit and leaves it there. |
| Cpu.NextExists | ostep-homework-master/threads-locks/x86.py:1020-1028 | While a thread is unfinished, the search for the next one succeeds within one round of the schedule. |
| Cpu.AheadIs | ostep-homework-master/threads-locks/x86.py:1022-1024 | Stepping the schedule position with its wrap-around is addition modulo the schedule's length. |
| CpuMachine.Processor.TestAll | ostep-homework-master/threads-locks/x86.py:285-299 | The six conditions are set as the comparison demands. |
| CpuMachine.Processor.Move | ostep-homework-master/threads-locks/x86.py:206-236 | The move and address instructions have their specified effect, failing on an unset memory word. |
| CpuMachine.Processor.Arithmetic | ostep-homework-master/threads-locks/x86.py:239-266 | The arithmetic instructions have their specified effect. |
| CpuMachine.Processor.Atomic | ostep-homework-master/threads-locks/x86.py:269-282 | Exchange and fetch-and-add swap or add in one step. |
| CpuMachine.Processor.Stack | ostep-homework-master/threads-locks/x86.py:353-385 | Call, return, push and pop move the stack pointer and memory together. |
| CpuMachine.Processor.Flow | ostep-homework-master/threads-locks/x86.py:301-350 | Tests and jumps have their specified effect on conditions and program counter. |
| CpuMachine.Processor.Step | ostep-homework-master/threads-locks/x86.py:888-895 | Fetch, increment and execute form the specified cycle. |
| CpuMachine.Process.Save | ostep-homework-master/threads-locks/x86.py:1066-1071 | The loops copy program counter, conditions and registers in full. |
| CpuMachine.Process.Restore | ostep-homework-master/threads-locks/x86.py:1073-1078 | The loops copy all of them back. |
| CpuMachine.ProcList.constructor | ostep-homework-master/threads-locks/x86.py:962-987 | Starts with the first scheduled process restored. |
| CpuMachine.ProcList.SetDone | ostep-homework-master/threads-locks/x86.py:997-1001 | Marks the current process finished and counts it. |
| CpuMachine.ProcList.Next | ostep-homework-master/threads-locks/x86.py:1020-1028 | The loop ends, at the first unfinished process after the current position. |
| CpuMachine.ProcList.Interrupts | ostep-homework-master/threads-locks/x86.py:919-932 | Counts down, and at zero or on a yield saves, switches and restores. |
| CpuMachine.ProcList.Turn | ostep-homework-master/threads-locks/x86.py:885-932 | The loop body is the specified turn, and it reports the end exactly when no process is active. |
| Fork.StartTree | ostep-homework-master/cpu-api/fork.py:57-68 | One root with no children is a tree. |
| Fork.CollectUnder | ostep-homework-master/cpu-api/fork.py:161-168 | Every process collected is a descendant. |
| Fork.UnderCollect | ostep-homework-master/cpu-api/fork.py:161-168 | Every descendant is collected. |
| Fork.CollectUnique | ostep-homework-master/cpu-api/fork.py:161-168 | None is collected twice. |
| Fork.RootCollectsAll | ostep-homework-master/cpu-api/fork.py:161-168 | From the root exactly the live processes are collected, each once. |
| Fork.ForkKeeps | ostep-homework-master/cpu-api/fork.py:154-159 | A fork keeps parents and children mutually inverse and acyclic if and only if the new name is not in use. |
| Fork.LocalKeeps | ostep-homework-master/cpu-api/fork.py:170-195 | An exit that gives orphans to the grandparent keeps the tree. |
| Fork.DescendantsAre | ostep-homework-master/cpu-api/fork.py:185-186 | The list used by the other rule holds exactly the proper descendants. |
| Fork.RootKids | ostep-homework-master/cpu-api/fork.py:183-195 | After that exit every former descendant is a child of the root and no other process changes parent. |
| Fork.RootKeeps | ostep-homework-master/cpu-api/fork.py:170-195 | An exit that gives all descendants to the root keeps the tree. |
| Fork.GenerationAt | ostep-homework-master/cpu-api/fork.py:78-85 | Each longer name is a name of the generation before and a letter, in order. |
| Fork.LettersAre | ostep-homework-master/cpu-api/fork.py:71-74 | The base names are all letters, lower case before upper case and each in its order. |
| Fork.NamesDiffer | ostep-homework-master/cpu-api/fork.py:78-93 | No name occurs twice, within a generation or across generations. |
| Fork.Forker.constructor | ostep-homework-master/cpu-api/fork.py:45-76 | Starts with the root and the next name ready. |
| Fork.Forker.GrowNames | ostep-homework-master/cpu-api/fork.py:78-85 | The loops produce the next generation. |
| Fork.Forker.GetName | ostep-homework-master/cpu-api/fork.py:87-93 | Returns the next name in order, growing the list at its end; it was not handed out before, and when all processes have names that were, no process has it. |
| Fork.Forker.DoFork | ostep-homework-master/cpu-api/fork.py:154-159 | The fork is the specified one, and keeps the tree if and only if the new name is not in use; with names that were handed out, every process has one still. |
| Fork.Forker.DoExit | ostep-homework-master/cpu-api/fork.py:170-198 | The exit is the specified one under either rule and keeps the tree. |
| ForkRun.RunKeepsExactly | ostep-homework-master/cpu-api/fork.py:253-268 | Over any list of forks and exits under either rule, with the leaf-only option or without, every state is a tree if and only if no fork names a process in use. |
| ForkRun.DistinctNamesKeep | ostep-homework-master/cpu-api/fork.py:253-268 | So a run from the root that gives no name twice, and never the root's, keeps the tree. |
| ForkRun.SuppliedNamesKeep | ostep-homework-master/cpu-api/fork.py:220-268 | Names taken from the supply in order are such: those of the generated action lists. |
| ForkRun.RootForksItself | ostep-homework-master/cpu-api/fork.py:253-259 | A run given by hand that breaks the tree: a+a. |
| RwLock.InvInit | ostep-code-master/threads-sema/rwlock.c:21-25 | Two free semaphores and no reader satisfy the invariant. |
| RwLock.StepKeeps | ostep-code-master/threads-sema/rwlock.c:27-49 | Every step of every thread keeps the invariant over both semaphores and the reader count. |
| RwLock.RunsKeep | ostep-code-master/threads-sema/rwlock.c:57-79 | It holds in every reachable state. |
| RwLock.Exclusion | ostep-code-master/threads-sema/rwlock.c:27-49 | A writer inside excludes all readers and all other writers, for any number of both. |
| RwLock.HeldIffMember | ostep-code-master/threads-sema/rwlock.c:27-41 | The reader group holds the write lock exactly while some reader is between taking it and handing it back. |
| RwLock.NoDeadlock | ostep-code-master/threads-sema/rwlock.c:27-49 | Unless all threads are done, some thread can step. |
| RwLock.NoReachableDeadlock | ostep-code-master/threads-sema/rwlock.c:57-79 | No run from the start reaches a deadlock. |
| RwLock.RunsAreBounded | ostep-code-master/threads-sema/rwlock.c:57-79 | Every run has at most thirteen steps for each turn of a reader and four for each turn of a writer. |
| RwLock.NoLostIncrement | ostep-code-master/threads-sema/rwlock.c:70-79 | When all threads are done the counter is writers times loops, and both semaphores are free. |
| JobOrder.TurnaroundIsWaitAndRun | ostep-homework-master/cpu-sched/scheduler.py:76-88 | Total turnaround is total waiting plus total run time. |
| JobOrder.FrontIsBetter | ostep-homework-master/cpu-sched/scheduler.py:76-88 | Moving a job in front of longer ones does not raise total turnaround. |
| JobOrder.ShortestFirstIsBest | ostep-homework-master/cpu-sched/scheduler.py:59-61 | An ascending order has the least total turnaround of all orders of the same jobs. |
| JobOrder.ByLengthSorts | ostep-homework-master/cpu-sched/scheduler.py:60 | The sort is ascending and loses no job. |
| JobOrder.Fifo | ostep-homework-master/cpu-sched/scheduler.py:63-88 | The loop's sums are the turnaround and waiting of the given order. |
| JobOrder.Sjf | ostep-homework-master/cpu-sched/scheduler.py:59-88 | The sum computed under SJF is the minimum over all orders of the job list, and is reached by one. |
| JobOrder.RoundKeeps | ostep-homework-master/cpu-sched/scheduler.py:110-129 | One turn keeps each job's time at its last run equal to its waiting plus its running. |
| JobOrder.TurnIsFair | ostep-homework-master/cpu-sched/scheduler.py:110-129 | One turn keeps the bound on each job's time since its last turn, a slice for every place it has come forward, and the bound on every wait before it. |
| JobOrder.RoundRobin | ostep-homework-master/cpu-sched/scheduler.py:91-129 | Round robin ends, at the sum of all run times, with every job's turnaround equal to its wait plus its run time; each job has as many turns as its length needs, its wait is the sum of the waits before them, and each of these is at most one slice of every other job. |

## Left out

In all models: option parsing, printing, tracing, quiz modes, timing, and statistics nothing depends on. Random choices are arguments or unconstrained results.

- FlashRun.ProvisionedNeverFull: with fewer than four spare blocks nothing is claimed about the device never being full; FlashRun.RunAgreesExactly and FlashRun.RunIsExplained then hold.
- FlashDrive.Ssd.constructor: direct and ideal mode are modelled with at least as many physical as logical pages, without which a legal address has no page, and a positive high mark, so that no collection starts; collecting a device that is not written as a log is not modelled.
- Flash statistics: only the count of failed logical writes is kept; wear counts and traces are not.
- PagePolicy.ChooseVictim: the random draws of RAND and CLOCK are any draws.
- BoundedBuffer.FinishedTally: stated for at least one consumer, at most 100 threads of each kind (main asserts both) and values that fit a C int.
- BoundedBuffer.Apply: joining a consumer stores an int in its slot of the counts; the source's join stores a pointer-sized value there (threads-cv/main-common.c:117), which on a 64-bit machine also reaches the next slot, filled later, and past the last one.
- BoundedBuffer: the pause points and print locks, which only delay.
- Condition variables follow the POSIX rules by definition: a signal wakes one waiter if there is one, and spurious wake-ups are allowed.
- LfsDrive.LFS.FileLink: with lookups through the disk the method requires the source inode to share a chunk with the destination parent; what a delete does after such a link is LfsDangling.DeleteThroughDisk, and other operations through a stale checkpoint are not modelled.
- LfsDrive.LFS.constructor: lookups through the disk are modelled only together with forced checkpoints.
- LfsDrive.LFS.FileCreate: a new entry named "-", which marks an empty slot, is excluded; paths are given as their parts, so splitting on "/" is not modelled.
- LfsDrive.LFS.FileWrite: the contents of the blocks are an argument in place of random ones.
- LFS command generation and error texts.
- PageTableOs.OS.ProcAlloc: the distinct random virtual pages are an argument; the random search for a free frame is any free frame.
- PageTableOs.OS.FillPage: the random bytes are unconstrained.
- PageTable.TranslateIsMap: virtual addresses are 16-bit words, which cover the 15-bit space.
- Raid.RaidDriver.Enqueue45: requests have at least one block, as in the generator; the source's division of integers through floating point is exact integer division.
- RAID 0 and RAID 1 placement, which would only add easy members, and disk queueing and timing.
- RaidParity.WriteIsRight: the simulator moves no data, so contents are a function from disk and offset to a byte, changed where the plan writes.
- Malloc.Allocator.Malloc: the rounded request with its header is positive, the heap is not empty and starts at a non-negative address.
- Mlfq.Scheduler.Simulate: run times, quantums, and allotments above the lowest level are positive; start and I/O times are not negative. Printed averages are left out.
- Afs.RunRefines: one client has a file open at most once at a time; AfsShared.RunShares allows any opens.
- AfsShared.RunShares: after an open that starts the count over, the closes of the opens it forgot are not followed beyond Afs.FirstCloseDrops.
- Afs.Server.Act: file descriptors are resolved to file names, and the counter that makes up new values is an argument.
- VsfsDrive.Fs.constructor: inodes and blocks are values in lists, so aliasing between objects is not captured; the two bitmaps are objects.
- VsfsTree.CreatedValid: full names are sequences of parts and no part contains "/"; the loop of random requests is left out.
- VsfsDrive.Bitmap.Alloc: the random search of fsck.py is any free bit.
- Vsfs.CorruptionShows: the consistency predicate is the model's; the program has no checker of its own.
- CpuMachine.Processor.Step: instructions are decoded values kept apart from data memory; assembly text, symbolic addresses, the bounds of memory and the dump instructions are not modelled, and an unset word reads as a fault.
- CpuMachine.ProcList.Turn: the interrupt interval is an argument; the loop around it is left out, as a program need not stop.
- Fork.Forker.DoExit: a removed process leaves the tables where the source marks it with -1; the leaf-only check and the list of actions are in module ForkRun, and the random choice of them is left out.
- RwLock: the lock built from a mutex and a condition variable on other systems.
- JobOrder.RoundRobin: times are real numbers without rounding and the quantum is positive; response times and averages are left out.
- ffs.py, process-run.py, multi.py, segmentation.py, relocation, lottery, checksum and the CS:APP code: easy members, system calls or demonstrations.
