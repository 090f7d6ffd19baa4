# Parts of the Mirage kernel: models and proofs

Mirage is a kernel without dynamic allocation: everything lives in fixed-size
tables that loops scan and rewrite in place. This project models the parts of
it where several tables have to agree, and proves what they keep.

- **Heap and user memory** (`Regions`, `Alignment`, `Heap`, `UserMemory`, `MemoryWitnesses`):
  the bump pointer with its first-fit, coalescing free list, owner-tagged records and
  realloc; above it the address-space table with fork-style cloning and user copies. Every
  operation keeps records and free regions non-empty, disjoint, inside the bump prefix, and
  free regions untouching; every byte an allocation touches is accounted for.
- **Security kernel** (`Labels`, `Capabilities`, `Security`, `SecurityWitnesses`, `Lineage`):
  labels, the capability table with derivation and revocation, spawn and exec
  authorisation. Live capabilities form a forest of shrinking authority in every run of
  security operations and of the kernel, and authority never grows along a lineage of
  tasks.
- **Processes, threads, messages, descriptors** (`Descriptors`, `KernelSteps`, `KernelIds`,
  `KernelFrame`, `KernelCreate`, `KernelFiles`, `KernelFileSteps`, `KernelThreads`,
  `KernelThreadSteps`, `KernelIpc`, `KernelWait`, `KernelRuns`, `KernelTheorems`, `KernelOrder`,
  `KernelLineage`, `KernelForest`, `KernelCallers`, `KernelWitnesses`, `KernelTaskWitnesses`,
  `Kernel`, `Ipc`):
  `KernelSteps` gives the kernel's steps as functions on a value of all tables;
  `Kernel.KernelTables` holds the same tables as fields that its methods update with the
  kernel's own loops, each proved to take its step. The theorems are about every state of
  every run of steps, and `KernelCallers` shows that calls by table threads make such runs.
  What the scheduler, the memory manager and the file system answer is a parameter of each
  step, so the theorems hold whatever they answer.
- **Smaller algorithms**: the initial user stack (`InitialStack`), the path normaliser
  (`Paths`), timers (`Timers`), the CRC and the boot manifest (`Folds`, `Crc`,
  `BootRuntime`).

Tables are `seq` fields that methods reassign; byte buffers, the message ring and the
user stack are arrays. `Tables` holds the search, sweep and sum operations all tables share.

Where the code does less than one would expect, the model follows the code, a theorem says
exactly when, and a witness gives an input, the kernel's ones as runs from boot:

- an overflow ends the free-list scan early (`Heap.ReserveFailsExactly`, `Heap.ScanCutShort`);
- a full free list loses bytes (`Heap.AllocationKeepsTight`, `Heap.ReleaseKeepsTight`,
  `MemoryWitnesses.SplitLosesEnd`, `MemoryWitnesses.FullListDrops`);
- a write hidden behind an overlapping read-only mapping cannot be read back
  (`UserMemory.WriteReadsBack`, `MemoryWitnesses.HiddenWrite`);
- a failed address-space clone leaves the child's space
  (`UserMemory.UserMemory.CloneUserAddressSpace`, `MemoryWitnesses.AbandonedSpace`);
- an owner that exits takes the blocks of mappings that stay
  (`UserMemory.UserMemory.ReleaseProcess`, `MemoryWitnesses.SharedSpaceLosesBlocks`);
- the user stack is misaligned when argc plus envc is even (`InitialStack.BuildInitialStack`,
  `InitialStack.EmptyVectorsMisalign`);
- a periodic timer due at the largest time never drains (`Timers.DrainNeverEnds`,
  `Timers.StuckTimer`);
- revocation reaches one level (`Capabilities.RevocationReach`,
  `SecurityWitnesses.GrandchildOutlives`);
- a failed first registration leaves records (`Security.FailedSeedingLeavesRecords`,
  `SecurityWitnesses.SeedingLeavesOne`), a failed later one strips the task
  (`Security.FailedReseedingStrips`, `SecurityWitnesses.ReseedingStripsOne`);
- so does a failed exec, which may also have closed descriptors and removed threads
  (`KernelTheorems.FailedExecStrips`, `KernelTaskWitnesses.StrippedByExec`,
  `KernelTheorems.ExecDisturbs`, `KernelTaskWitnesses.ClosedByFailedExec`);
- a send to a blocked receiver that cannot be made ready leaves its message
  (`KernelIpc.SendFailure`, `KernelWitnesses.StrandedMessage`);
- a wake-up that fails can leave a thread blocked that was ready
  (`KernelThreads.WakingIsAllOrNothing`, `KernelTaskWitnesses.WakingBlocks`);
- a spawn or process clone whose address space fails leaves descriptors retained, for good
  (`KernelFileSteps.StepStaysExact`, `KernelTheorems.FailedCloneRetains`,
  `KernelTheorems.FailedShellRetains`, `KernelTheorems.LeakIsForever`,
  `KernelWitnesses.RetainedDescriptors`, `KernelTaskWitnesses.RetainedByClone`);
- a spawned image that does not load leaves a thread (`KernelTheorems.FailedLoadLeavesThread`,
  `KernelTaskWitnesses.OrphanedThread`);
- exec told to keep another process's thread miscounts (`KernelThreadSteps.ReimagedCounts`,
  `KernelWitnesses.ForeignThreadMiscounts`);
- a zombie that blocks or waits is no longer a zombie, one that opens a file holds it, and one
  that clones a thread has it (`KernelTheorems.BlockingKeepsLife`,
  `KernelTheorems.WaitingKeepsLife`, `KernelTheorems.OpeningKeepsFiles`,
  `KernelCallers.CloningHaunts`, `KernelWitnesses.ExitedCallerDisturbs`,
  `KernelTaskWitnesses.ExitedParentWaits`, `KernelTaskWitnesses.HauntedRun`);
- a zombie moved into the group its parent waits for is missed
  (`KernelTheorems.SoundStepMissesNone`, `KernelTaskWitnesses.MissedByGroup`).

## Model

| member | source | states |
|---|---|---|
| `Regions.MergeAbsorbs` | src/kernel/memory.rs:635-664 | Absorbing a touching region keeps the merge going: because stored regions never touch each other, the far end of the union touches nothing already passed, so one pass is enough. |
| `Regions.MergeStores` | src/kernel/memory.rs:635-664 | A finished merge stored in a vacant slot gives again a list of non-empty, pairwise untouching regions whose free bytes are the old ones plus the inserted region. |
| `Regions.MergeDrops` | src/kernel/memory.rs:635-664 | A region is lost only when the list was full and no stored region touched it; the list is then unchanged. |
| `Alignment.AlignedOffsetIsLeast` | src/kernel/memory.rs:666-691 | The padded offset is aligned as an address and is the least such offset, so the padding is minimal. |
| `Alignment.AlignedHeapOffset` | src/kernel/memory.rs:666-695 | Computed from two remainders without overflow: exactly the least aligned offset, None for a non-power of two or past 64 bits. |
| `Alignment.AlignUpIsLeast` | src/kernel/memory.rs:684-691 | Rounding up gives the one multiple within one alignment step. |
| `Heap.MemoryManager.constructor` | src/kernel/memory.rs:192-202 | A new manager has no records, no free regions and satisfies the heap invariant. |
| `Heap.MemoryManager.InsertFreeRegion` | src/kernel/memory.rs:635-664 | The free list stays non-empty-regions, below the bump pointer, untouching; free bytes grow by exactly the region unless the list was full and no neighbour touched it; and the list is slot by slot the one-pass merge. |
| `Heap.MemoryManager.MergeNeighbours` | src/kernel/memory.rs:639-655 | The pass takes every neighbour out of the list and into the region, and nothing else. |
| `Heap.MemoryManager.ReserveFromFreeList` | src/kernel/memory.rs:537-559 | First fit: the block chosen by the scan, carved out so that the rest of its region stays free, except the far end when both ends are left and the list is full. |
| `Heap.MemoryManager.CarveBlock` | src/kernel/memory.rs:544-553 | Exactly the block stops being free, and with a full list and both ends left the far end too. |
| `Heap.MemoryManager.Reserve` | src/kernel/memory.rs:523-559 | A block disjoint from every record and free region, aligned, from the list or the bump tail, with exactly the bytes it takes and the list and bump pointer it leaves; on failure nothing changes. |
| `Heap.MemoryManager.EnsureBacking` | src/kernel/memory.rs:232-263 | Succeeds exactly on a static heap, or when the paging layer grows a virtual one that reaches far enough; the new commitment is recorded and nothing else changes. |
| `Heap.MemoryManager.RecordAllocation` | src/kernel/memory.rs:561-571 | The record enters the first vacant slot, or the table is full and unchanged. |
| `Heap.MemoryManager.Allocate` | src/kernel/memory.rs:269-297 | Returns exactly where the request is placed when there is room, it can be committed and a record slot is vacant, with exact byte and peak counters. Granted or refused, every byte that was live or free still is, and so is the block, except exactly the far end of a region split on a full list, or a refused block from the bump tail that the list cannot take. |
| `Heap.MemoryManager.Settle` | src/kernel/memory.rs:276-297 | A reserved block is recorded exactly when it can be committed and a record slot is vacant; otherwise it is free again, unless the list was full and nothing touched it. |
| `Heap.MemoryManager.HandBack` | src/kernel/memory.rs:277-295 | A block that could not be recorded becomes free again, unless the list was full and nothing touched it. |
| `Heap.MemoryManager.MallocFor` | src/kernel/memory.rs:265-297 | Returns exactly the address that room, backing and record slots allow; the invariant over records and free regions is kept, a success is one new owner-tagged word-aligned record, a failure leaves records and counters alone. |
| `Heap.MemoryManager.MallocAlignedFor` | src/kernel/memory.rs:299-337 | As malloc, exactly, at the larger of word and requested alignment, and only for powers of two. |
| `Heap.MemoryManager.MmapFor` | src/kernel/memory.rs:401-446 | As malloc, exactly, page-rounded, page-aligned and tagged as a mapping with its protection. |
| `Heap.MemoryManager.FindAllocationIndex` | src/kernel/memory.rs:592-603 | The first record with this owner and offset. |
| `Heap.MemoryManager.ReleaseSlot` | src/kernel/memory.rs:605-633 | The record goes, allocated bytes fall by its size, and its bytes become free exactly when there is a vacancy or a neighbour to merge with. |
| `Heap.MemoryManager.Release` | src/kernel/memory.rs:573-590 | Succeeds exactly for the caller's own record of the right kind and length, whose bytes become free unless the list was full and nothing touched them; otherwise nothing changes. |
| `Heap.MemoryManager.FreeFor` | src/kernel/memory.rs:393-399 | Frees exactly the caller's own heap record at the pointer. |
| `Heap.MemoryManager.MunmapFor` | src/kernel/memory.rs:448-463 | Unmaps exactly the caller's own mapping of at least the given length. |
| `Heap.MemoryManager.ShrinkInPlace` | src/kernel/memory.rs:370-380 | The record keeps its offset, the cut tail becomes free unless the list was full and nothing touched it, the counter falls by the difference. |
| `Heap.MemoryManager.MoveToLarger` | src/kernel/memory.rs:382-388 | The new block starts with all old bytes, lies apart from every live block, and the bytes of every other record are untouched; on failure nothing moves. |
| `Heap.MemoryManager.CopyAndFree` | src/kernel/memory.rs:384-387 | The bytes are copied to the target and the old record is dropped. |
| `Heap.MemoryManager.Resize` | src/kernel/memory.rs:357-391 | With the caller's block found: shrink in place, or move exactly when a fresh allocation of that size would be granted, or change nothing. |
| `Heap.MemoryManager.ReallocFor` | src/kernel/memory.rs:339-391 | All cases: null pointer, foreign pointer, size zero, shrink in place with the same pointer, or move with contents kept; growing fails exactly when malloc would, shrinking never; every other live block keeps its bytes. |
| `Heap.MemoryManager.ReleaseProcess` | src/kernel/memory.rs:465-477 | Exactly the owner's records go, handed back one by one in table order; what was free stays free and nothing becomes free but their bytes, all of them when there is a vacant free slot for each record. |
| `Heap.MemoryManager.PromoteToVirtualHeap` | src/kernel/memory.rs:204-224 | The backing is switched exactly when nothing has been allocated and the capacity is sane. |
| `Heap.MemoryManager.DisableStaticHeap` | src/kernel/memory.rs:226-230 | A static heap is disabled, a virtual one is not. |
| `Heap.LiveSumBounded` | src/kernel/memory.rs:697-706 | The sum of live sizes fits below the bump pointer, so the saturating byte counter never saturates and stays that sum. |
| `Heap.FitsMeansRoom` | src/kernel/memory.rs:537-559 | Fitting at the least aligned offset is the same as fitting anywhere in the region. |
| `Heap.ReserveFailsExactly` | src/kernel/memory.rs:523-559 | Reservation fails exactly when the bump tail has no room and every region with room comes after one whose offset arithmetic overflows and ends the scan. |
| `Heap.ReserveComplete` | src/kernel/memory.rs:523-559 | Clear of the end of the address space, reservation fails exactly when neither the tail nor any region has room. |
| `Heap.ListTakesBack` | src/kernel/memory.rs:277-295 | A block taken from the list always finds its way back: a rest of its region or the slot it left is there. |
| `Heap.AllocationKeepsTight` | src/kernel/memory.rs:269-297 | With every byte below the bump pointer live or free, an allocation, granted or refused, keeps it so exactly when it loses nothing and skips no padding. |
| `Heap.ReleaseKeepsTight` | src/kernel/memory.rs:605-633 | Releasing a record keeps it so exactly when the free list has a vacancy or a neighbour for it. |
| `MemoryWitnesses.SplitLosesEnd` | src/kernel/memory.rs:544-553 | A one-slot list whose region is cut in the middle and loses its far end. |
| `MemoryWitnesses.FullListDrops` | src/kernel/memory.rs:635-664 | A one-slot list that drops a region. |
| `Heap.MemoryManager.TailGrants` | src/kernel/memory.rs:523-535 | A page request that fits the bump tail, can be committed and has a record slot is granted. |
| `Heap.ScanCutShort` | src/kernel/memory.rs:541-542 | A concrete list, over a base that a manager can have, in which a fitting region is not found because an earlier one overflows. |
| `UserMemory.BlocksApart` | src/kernel/memory.rs:1064-1116 | Kernel blocks behind different user mappings share no byte. |
| `UserMemory.TranslateOf` | src/kernel/memory.rs:1198-1219 | Which mapping answers depends only on the order among the root's own mappings. |
| `UserMemory.MirrorReadsSame` | src/kernel/memory.rs:988-1017 | A root whose mappings mirror another's reads the same bytes and may write the same ranges, overlaps included. |
| `UserMemory.DroppedAreOwned` | src/kernel/memory.rs:1042-1057 | Where every mapping belongs to the owner of its space, the heap records that go with an owner's spaces are the owner's. |
| `UserMemory.ViewKept` | src/kernel/memory.rs:1198-1244 | A root's view depends on its own mappings and the bytes behind them only. |
| `UserMemory.WriteIsPrivate` | src/kernel/memory.rs:1237-1244 | Overwriting bytes inside one mapping changes nothing that any other root reads. |
| `UserMemory.WriteReadsBack` | src/kernel/memory.rs:1198-1244 | The mappings that answer a read and a write of the same range are one and the same or share no byte: the read after the write gives the input or what it gave before. |
| `UserMemory.UserMemory.constructor` | src/kernel/memory.rs:820-827 | Empty tables satisfy the invariant. |
| `UserMemory.UserMemory.MmapUserFixed` | src/kernel/memory.rs:1064-1116 | Succeeds exactly when the range is sane, the heap grants it, every page maps and a slot is vacant; then a page-rounded mapping enters the first vacant slot over a block of its own, else nothing changes. |
| `UserMemory.UserMemory.MapRegion` | src/kernel/memory.rs:1080-1115 | A recorded block is entered exactly when every page maps and a slot is vacant; otherwise its record goes again and no mapping changes. |
| `UserMemory.UserMemory.CreateUserAddressSpace` | src/kernel/memory.rs:952-970 | A space with one reference enters the first vacant slot, or the fresh root is given up. |
| `UserMemory.UserMemory.CloneUserAddressSpace` | src/kernel/memory.rs:988-1017 | After a successful clone every range reads the same in child and parent and is writable in both or neither; every other root, and the parent, reads what it read before, even when the clone fails. It succeeds exactly when there are a space slot, and a mapping slot and a heap record for every mapping of the parent, every page maps, and the heap serves the parent's lengths one after another; room in the bump tail is enough for that. A failure leaves the child's space, a mirror of the parent's first mappings and the records behind them, and nothing else. |
| `UserMemory.UserMemory.CloneMapping` | src/kernel/memory.rs:997-1013 | One turn of the clone loop extends the mirror by the next parent mapping, exactly when that range can be mapped; it takes one slot, one record, and what the heap gives for its length. |
| `UserMemory.UserMemory.FailureIsDue` | src/kernel/memory.rs:1000-1006 | Mapping one more range for the child fails only when the clone cannot be afforded or the heap does not serve that length, and not while the bump tail has room. |
| `UserMemory.UserMemory.ActiveTranslatedSlice` | src/kernel/memory.rs:1198-1219 | The first mapping of the root that contains the range answers; an empty range always does. |
| `UserMemory.UserMemory.CopyFromUser` | src/kernel/memory.rs:1228-1235 | Returns exactly the bytes the root sees, or fails when no mapping contains the range. |
| `UserMemory.UserMemory.CopyToUser` | src/kernel/memory.rs:1237-1244 | A write through one root is invisible through every other; reading it back gives it if reading meets the mapping that was written and what was there before if not, so it reads back exactly then or if the bytes were there already. |
| `UserMemory.UserMemory.DestroyUserAddressSpace` | src/kernel/memory.rs:1019-1062 | A shared space loses one reference; the last one takes exactly the root's mappings and the heap records behind them; other roots read on unchanged. |
| `UserMemory.UserMemory.ReleaseProcess` | src/kernel/memory.rs:1174-1196 | The owner's unshared spaces go with their mappings and the records behind them, shared ones lose a user, and so do all of the owner's records; the invariant holds afterwards exactly when no mapping of the owner is left; roots of other or shared spaces read on unchanged. |
| `UserMemory.OwnSpacesTear` | src/kernel/memory.rs:1174-1196 | Where mappings belong to the owners of their spaces and none is shared, exactly the owner's mappings go. |
| `UserMemory.UserMemory.ShareUserAddressSpace` | src/kernel/memory.rs:972-986 | A known root counts one user more, saturating; any other is refused. |
| `MemoryWitnesses.HiddenWrite` | src/kernel/memory.rs:1198-1244 | A page mapped read-only and then writable: the write succeeds and the read still gives zeros. |
| `MemoryWitnesses.SharedSpaceLosesBlocks` | src/kernel/memory.rs:1174-1196 | A space shared by another process whose owner exits: the mapping stays and no record is behind it. |
| `MemoryWitnesses.AbandonedSpace` | src/kernel/memory.rs:988-1017 | A clone without a mapping slot fails and the child's space stays in the table. |
| `Ipc.PushAppends` | src/kernel/ipc.rs:81-89 | Filling the slot behind the ring appends to the abstract queue. |
| `Ipc.PopDrops` | src/kernel/ipc.rs:91-100 | Emptying the head slot drops the oldest message. |
| `Ipc.RollbackDrops` | src/kernel/ipc.rs:102-111 | Emptying the last filled slot drops the newest message. |
| `Ipc.MessageQueue.constructor` | src/kernel/ipc.rs:72-79 | A new ring is empty. |
| `Ipc.MessageQueue.Push` | src/kernel/ipc.rs:81-89 | Fails exactly when full, else appends; wrap-around of the tail included. |
| `Ipc.MessageQueue.Pop` | src/kernel/ipc.rs:91-100 | Takes the oldest message, or reports an empty ring. |
| `Ipc.MessageQueue.RollbackLastPush` | src/kernel/ipc.rs:102-111 | Takes the newest message off again, so right after a push it restores the abstract queue. |
| `Ipc.MessageQueue.Clear` | src/kernel/ipc.rs:113-122 | Leaves an empty ring. |
| `InitialStack.LeRoundTrip` | src/kernel/elf.rs:344-356 | Little-endian words read back. |
| `InitialStack.StringsReadBack` | src/kernel/elf.rs:289-316 | Every copied string is found NUL-terminated at the address returned for it. |
| `InitialStack.FinishedReadsBack` | src/kernel/elf.rs:318-342 | Reading upward recovers argc, argv, NULL, envp, NULL and a null auxv pair, and each pointer leads to its string. |
| `InitialStack.InitialStackBuilder.constructor` | src/kernel/elf.rs:280-287 | The builder starts with an empty image at the top of the stack, wherever the stack lies. |
| `InitialStack.InitialStackBuilder.PushU64` | src/kernel/elf.rs:344-369 | A word goes below everything written so far, which stays intact, exactly when it fits. |
| `InitialStack.InitialStackBuilder.CopyVectorStrings` | src/kernel/elf.rs:289-316 | Strings are copied below each other and their addresses returned, exactly when all can be read and fit. |
| `InitialStack.InitialStackBuilder.Finish` | src/kernel/elf.rs:318-342 | The vectors are laid out below the strings; where the pointer ends up and when it fits are exact. |
| `InitialStack.BuildInitialStack` | src/kernel/elf.rs:247-277 | Succeeds exactly when everything fits; the stack reads back to the original vectors, and the pointer is 16-byte aligned exactly when argc plus envc is odd (section 3.4.1 of the System V ABI AMD64 supplement asks for alignment always). |
| `InitialStack.EmptyVectorsMisalign` | src/kernel/elf.rs:325-341 | A page of stack and no arguments at all: the stack reads back to empty vectors and its pointer is 8 bytes off a multiple of 16. |
| `Paths.SplitJoins` | src/kernel/mod.rs:3870-3878 | Splitting at slashes loses nothing: joined again the components are the raw text. |
| `Paths.SplitComponents` | src/kernel/fs/path.rs:29-55 | Components of a valid path are short and free of slashes and NUL bytes. |
| `Paths.Validate` | src/kernel/fs/path.rs:29-55 | Accepts exactly non-empty paths of at most 128 bytes without NUL and without a run of more than 32 bytes between slashes, and says which rule was broken. |
| `Paths.RootIsPrefix` | src/kernel/mod.rs:3848-3880 | The root's bytes are a prefix of everything resolved below it. |
| `Paths.JoinIsValid` | src/kernel/mod.rs:3879-3880 | A joined normalised path always passes the final validation. |
| `Paths.ResolvedIsFixed` | src/kernel/mod.rs:3840-3881 | A resolved path resolves to itself. |
| `Paths.KernelPathBuf.constructor` | src/kernel/mod.rs:608-620 | The buffer holds the given text. |
| `Paths.KernelPathBuf.FromStr` | src/kernel/mod.rs:608-620 | Refuses exactly empty and over-long text. |
| `Paths.KernelPathBuf.PopComponent` | src/kernel/mod.rs:638-648 | The three in-place loops cut exactly the last component, with any trailing slashes, and stop at the root slash. |
| `Paths.KernelPathBuf.PushComponent` | src/kernel/mod.rs:634-670 | Refines one step on the stack of components; fails exactly on an over-long component or path, says which, and then leaves the content alone. |
| `Paths.KernelPathBuf.ResolveComponent` | src/kernel/mod.rs:3870-3878 | One turn of the resolution loop: dot-dot pops but never below the root. |
| `Paths.ResolveComponents` | src/kernel/mod.rs:3870-3878 | The loop computes the fold of the component stack. |
| `Paths.ResolvePathStr` | src/kernel/mod.rs:3840-3881 | Yields exactly the joined fold over the components, is normalised again, and fails exactly when the raw path is invalid or the start or a path on the way is too long. |
| `Timers.PeriodicMovesOn` | src/kernel/timer.rs:183-209 | A periodic timer moves to the least old deadline plus a whole number of intervals that exceeds now, capped at the end of time. |
| `Timers.SilencedUnlessEndOfTime` | src/kernel/timer.rs:183-209 | An expired timer is due again exactly when it is periodic and now is the largest 128-bit time. |
| `Timers.ExpirySilences` | src/kernel/mod.rs:4671-4679 | Below the end of time no expiry makes its timer due again. |
| `Timers.DrainNeverEnds` | src/kernel/mod.rs:4671-4679 | At the end of time with a periodic timer due, the drain loop finds a due timer after every turn. |
| `Timers.StuckTimer` | src/kernel/timer.rs:183-209 | A timer of period one at the largest time: expiring it gives the same table again. |
| `Timers.Pigeonhole` | src/kernel/timer.rs:224-239 | Probing meets ids in use at most as often as there are timer slots, across the 64-bit wrap. |
| `Timers.TimerManager.constructor` | src/kernel/timer.rs:51-57 | Empty tables, next id one. |
| `Timers.TimerManager.LocateTimer` | src/kernel/timer.rs:211-222 | The first slot holding the owner's timer. |
| `Timers.TimerManager.AllocateTimerId` | src/kernel/timer.rs:224-239 | The first unused non-zero id in the cycle, found within the number of slots plus one probes; the fall-back is unreachable. |
| `Timers.TimerManager.CreateTimer` | src/kernel/timer.rs:111-128 | A disarmed timer with an id unused by its owner, or a full table unchanged; ids stay unique per owner. |
| `Timers.TimerManager.SetTimer` | src/kernel/timer.rs:135-154 | Arms or disarms exactly the owner's timer and returns its previous state. |
| `Timers.TimerManager.DeleteTimer` | src/kernel/timer.rs:156-160 | Removes exactly the owner's timer. |
| `Timers.TimerManager.ReleaseProcess` | src/kernel/timer.rs:162-181 | Removes exactly the owner's sleeps and timers. |
| `Timers.TimerManager.AddSleep` | src/kernel/timer.rs:73-92 | The entry enters the first free slot, or the table is full. |
| `Timers.TimerManager.ExpireSleep` | src/kernel/timer.rs:94-109 | Takes the first due sleep and reports its process and thread. |
| `Timers.TimerManager.ExpireTimer` | src/kernel/timer.rs:183-209 | Reports the first due timer and rearms or disarms it. |
| `Timers.TimerManager.WakeExpiredTimeouts` | src/kernel/mod.rs:4671-4679 | Terminates; each due sleep and timer is reported exactly once, in table order, the rest is unchanged, and nothing is due afterwards. |
| `Crc.Crc32` | src/kernel/partition.rs:191-201 | The nested loops compute the checksum function. |
| `Crc.RoundIsInjective` | src/kernel/partition.rs:194-199 | Eight shift rounds are injective on registers. |
| `Crc.ChecksumDetectsBurst` | src/kernel/partition.rs:191-201 | Two inputs of equal length that differ only within four consecutive bytes have different checksums (the CRC of section 5.3.2 of the UEFI Specification). |
| `BootRuntime.CheckSelfConsistent` | src/kernel/boot_runtime.rs:199-212 | Decides whether a payload that covers its own entry repeats it with the hash field blanked. |
| `BootRuntime.ReadEntry` | src/kernel/boot_runtime.rs:187-224 | One turn of the entry loop, error by error. |
| `BootRuntime.ReadEntries` | src/kernel/boot_runtime.rs:186-226 | The files of all entries, or the first error. |
| `BootRuntime.ParseManifest` | src/kernel/boot_runtime.rs:155-227 | The whole parser, over any payload check. |
| `BootRuntime.EntryVerdict` | src/kernel/boot_runtime.rs:187-224 | A change that leaves an entry alone is an error for it exactly when its payload changed. |
| `BootRuntime.CorruptionDetected` | src/kernel/boot_runtime.rs:155-227 | For any check that detects short bursts: a burst away from header and entry table gives a CRC error exactly when a payload changed, and the same files otherwise. |
| `BootRuntime.CrcCorruptionDetected` | src/kernel/boot_runtime.rs:155-227 | The same for the CRC the parser uses. |
| `Labels.WithinInherited` | src/subkernel/mod.rs:183-198 | Whatever an inherited capability allows its parent allows, and it never carries the right to revoke. |
| `Labels.DelegationTransitive` | src/subkernel/mod.rs:49-52 | Label dominance with capability containment is transitive. |
| `Labels.DelegationGivesNoPrivilege` | src/subkernel/mod.rs:485-492 | Nothing an unprivileged task can delegate is system-privileged. |
| `Capabilities.InsertAllKeepsForest` | src/subkernel/mod.rs:999-1022 | A run of insertions whose parents are live keeps ids distinct and every child below its parent, until the id counter wraps. |
| `Capabilities.IdsAdvance` | src/subkernel/mod.rs:999-1022 | Ids only go up, unless the counter wraps past zero. |
| `Capabilities.InsertAllFits` | src/subkernel/mod.rs:999-1022 | A run of insertions succeeds exactly when there is a vacancy for each, and uses up that many. |
| `Capabilities.InsertAllGives` | src/subkernel/mod.rs:999-1022 | A run of insertions that succeeds leaves its owner a record of every grant. |
| `Capabilities.RevokingUndoesAdding` | src/subkernel/mod.rs:692-702 | Revoking everything a new owner received restores the table. |
| `Capabilities.RevokedExactly` | src/subkernel/mod.rs:607-624 | After revoking a live id no record has it or names it as parent, all others are unchanged, and the forest stays. |
| `Capabilities.AuthorityShrinks` | src/subkernel/mod.rs:196-198 | Down any chain of derivation the object is the same and the rights only shrink. |
| `Capabilities.RequestsPassUpward` | src/subkernel/mod.rs:1024-1102 | A request granted at the bottom of a chain is granted at its top. |
| `Capabilities.RevocationReach` | src/subkernel/mod.rs:613-621 | Some descendant outlives a revocation exactly when a child of the revoked record has a child: revocation reaches one level. |
| `SecurityWitnesses.GrandchildOutlives` | src/subkernel/mod.rs:607-663 | Three tasks are registered, a capability is granted and handed on twice: the third task can still use it after the first record is revoked. |
| `Security.DerivedAreGrounded` | src/subkernel/mod.rs:665-690 | Everything a child inherits hangs below a live record with the same object and at least those rights. |
| `Security.RegistrationIsLocal` | src/subkernel/mod.rs:557-588 | A registration gives the task its credentials, a failed one leaves the domains alone, and no other task's domain changes. |
| `Security.RevocationUndoesRegistration` | src/subkernel/mod.rs:590-595 | Revoking a new task restores the domains and the records as they were before it was registered, whatever it was handed since. |
| `Security.RevocationIsLocal` | src/subkernel/mod.rs:590-595 | Revoking a task removes its domain and nobody else's. |
| `Security.FailedSeedingLeavesRecords` | src/subkernel/mod.rs:574-587 | A failed registration of an unknown task restores the records exactly when there was no free domain or no free record slot; otherwise seeded records stay behind. |
| `Security.RegistrationSucceeds` | src/subkernel/mod.rs:557-588 | A registration succeeds exactly when there is a domain slot and a vacancy for every seeded record, counted after a known task's own records are gone. |
| `Security.FailedReseedingStrips` | src/subkernel/mod.rs:562-572 | A known task whose registration fails keeps its domain and loses every record it had; the table is as before exactly when it had none. |
| `SecurityWitnesses.SeedingLeavesOne` | src/subkernel/mod.rs:574-587 | With one vacancy left after 255 grants, registering a third task fails and leaves one record of it. |
| `SecurityWitnesses.ReseedingStripsOne` | src/subkernel/mod.rs:562-572 | In a table filled by 256 grants, registering a task anew fails, keeps its domain and takes its record. |
| `Security.FailureFillsTheTable` | src/subkernel/mod.rs:999-1022 | A run of insertions fails only on a full table. |
| `Security.OperationKeepsForest` | src/subkernel/mod.rs:557-702 | Every operation keeps the capability forest unless the id counter wraps in it. |
| `Security.EveryRunKeepsForest` | src/subkernel/mod.rs:557-702 | In every run before wrap-around live ids are distinct and every record with a live parent has its object, a larger id and rights within the parent's minus Revoke. |
| `Security.OperationAdvances` | src/subkernel/mod.rs:999-1022 | One operation moves the id counter by at most a table of records, or wraps it. |
| `Security.ShortRunKeepsForest` | src/subkernel/mod.rs:557-702 | A run of up to eight operations keeps the forest unless the id counter ends below where it began. |
| `Security.OperationStaysBelow` | src/subkernel/mod.rs:557-702 | No operation but registration makes the tables mention a task id not mentioned before. |
| `Security.SecurityKernel.constructor` | src/subkernel/mod.rs:534-540 | Empty tables with next id one form a forest. |
| `Security.SecurityKernel.FindDomain` | src/subkernel/mod.rs:1117-1135 | The first domain of the task. |
| `Security.SecurityKernel.FindCapabilityIndex` | src/subkernel/mod.rs:1104-1115 | The first record with the id. |
| `Security.SecurityKernel.InsertCapability` | src/subkernel/mod.rs:999-1022 | A record with the next id in the first vacant slot, or a full table unchanged; the counter skips zero. |
| `Security.SecurityKernel.InsertCapabilities` | src/subkernel/mod.rs:908-997 | A run of insertions stops at the first failure. |
| `Security.SecurityKernel.RevokeAllCapabilities` | src/subkernel/mod.rs:692-702 | Removes exactly the owner's records. |
| `Security.SecurityKernel.RegisterTask` | src/subkernel/mod.rs:557-588 | Takes the register step, clean-up of known tasks and left-over records of new ones included. |
| `Security.SecurityKernel.RevokeTask` | src/subkernel/mod.rs:590-595 | Takes the revoke step. |
| `Security.SecurityKernel.GrantCapability` | src/subkernel/mod.rs:597-605 | Takes the grant step and returns the new id. |
| `Security.SecurityKernel.RevokeCapability` | src/subkernel/mod.rs:607-624 | Takes the revoke-capability step: the record and one level of children. |
| `Security.SecurityKernel.TransferCapability` | src/subkernel/mod.rs:640-663 | Takes the transfer step: only the owner of a transferable record may hand it on, without Revoke. |
| `Security.SecurityKernel.DeriveInheritedChildCapabilities` | src/subkernel/mod.rs:665-690 | Takes the derive step over the snapshot of the table, partial on a full table. |
| `Security.SecurityKernel.HasCapability` | src/subkernel/mod.rs:1024-1043 | True exactly when some record of the owner matches the object and has the right. |
| `Security.SecurityKernel.CheckCapability` | src/subkernel/mod.rs:626-638 | Succeeds exactly for a known task with such a record. |
| `Security.SecurityKernel.AuthorizeIpc` | src/subkernel/mod.rs:704-730 | Succeeds exactly when both domains exist, the sender may send to the receiver, both labels dominate the class, and no virtual machine talks to an unisolated task. |
| `Security.SecurityKernel.AuthorizeSpawn` | src/subkernel/mod.rs:802-818 | Succeeds exactly for a task that may spawn and is privileged or delegates within its own bounds. |
| `Security.SecurityKernel.AuthorizeExec` | src/subkernel/mod.rs:820-845 | Succeeds exactly for an executable, untruncated image that is delegated, privileged or a signed daemon. |
| `Lineage.StepConfines` | src/subkernel/mod.rs:802-845 | One authorised spawn, fork, clone, unsigned exec or exit keeps a family confined. |
| `Lineage.LineageIsConfined` | src/subkernel/mod.rs:802-845 | From an unprivileged task every task reached by authorised steps stays unprivileged, dominated and within its capabilities, whatever others do in between. |
| `KernelLineage.KernelStepIsTaskStep` | src/kernel/exec.rs:115-293 | Every kernel step acts on the domains as one authorised task step and gives out at most the next process id. |
| `KernelLineage.KernelConfinement` | src/kernel/exec.rs:115-293 | Over a whole kernel run everything an unprivileged task brings forth stays within what it started with. |
| `KernelForest.StepIsOperations` | src/kernel/exec.rs:115-564 | To domains and capabilities every kernel step is a run of at most five security operations. |
| `KernelForest.StepKeepsForest` | src/kernel/exec.rs:115-564 | So every kernel step keeps the capability forest unless it wraps the id counter. |
| `KernelForest.EveryStateIsRooted` | src/kernel/exec.rs:115-564 | In every state of every kernel run before id wrap-around the capabilities form a forest of shrinking authority. |
| `KernelForest.InitialIsRooted` | src/kernel/mod.rs:1006-1031 | A new kernel has the empty forest. |
| `Descriptors.RaiseStep` | src/kernel/mod.rs:4376-4396 | Retaining one more slot raises exactly the count it names. |
| `Descriptors.DropStep` | src/kernel/mod.rs:4412-4427 | Releasing one more slot lowers exactly the count it names, closing it at zero. |
| `Descriptors.DropUndoesRaise` | src/kernel/mod.rs:4376-4427 | Releasing what was just retained restores the counts exactly when no 16-bit counter saturated. |
| `KernelFiles.NamedIsOpen` | src/kernel/process.rs:421-507 | Under the balance no descriptor slot names a closed description. |
| `KernelFiles.DuplicateBalances` | src/kernel/mod.rs:4251-4306 | Duplicating into a free or used slot keeps counts and slots in balance. |
| `KernelFiles.RaiseBalances` | src/kernel/mod.rs:4376-4396 | Copying a table and retaining it once more keeps the balance with the copy in hand. |
| `KernelFileSteps.OpenKeeps` | src/kernel/mod.rs:3307-3328 | Opening keeps the balance, also when the descriptor table is full. |
| `KernelFileSteps.CloseKeeps` | src/kernel/mod.rs:3330-3337 | Closing keeps the balance. |
| `KernelFileSteps.DuplicateKeeps` | src/kernel/mod.rs:4251-4272 | dup keeps the balance, also when no descriptor is free. |
| `KernelFileSteps.DuplicateToKeeps` | src/kernel/mod.rs:4274-4306 | dup2 and dup3 keep the balance in every branch. |
| `KernelFileSteps.ExitKeeps` | src/kernel/mod.rs:1690-1724 | Exit releases every descriptor and keeps the balance. |
| `KernelFileSteps.WaitKeeps` | src/kernel/mod.rs:3974-4017 | Reaping keeps the balance because zombies hold nothing. |
| `KernelFileSteps.ExecKeeps` | src/kernel/exec.rs:199-231 | Close-on-exec keeps the balance. |
| `KernelFileSteps.PrepareBalances` | src/kernel/exec.rs:342-372 | What create_process_task holds when its block is ready, that releasing it restores the counts exactly when none saturated, and that an address space that cannot be copied costs exactness only if descriptors were inherited. |
| `KernelFileSteps.PrepareShellBalances` | src/kernel/exec.rs:436-471 | The same for create_cloned_process_shell, where the consoles must have fitted. |
| `KernelFileSteps.SpawnKeeps` | src/kernel/exec.rs:115-128 | Spawning keeps counts at least the slots that name them, equal unless it leaks, and above them where they were. |
| `KernelFileSteps.CloneProcessKeeps` | src/kernel/exec.rs:233-293 | The same for cloning into a process. |
| `KernelFileSteps.StepKeepsFiles` | src/kernel/mod.rs:3307-4447 | Every step keeps counts at least the number of slots naming each description, equal to it unless it leaks, and above it where they were above it. |
| `KernelFileSteps.LeakLeavesOne` | src/kernel/exec.rs:361-365 | A step that leaks, by spawn, loaded spawn or process clone, leaves a description counted more often than it is named. |
| `KernelFileSteps.StepStaysExact` | src/kernel/exec.rs:342-473 | Exact counts stay exact in a step exactly when it does not leak: authorised, with a process slot, inheriting or opening a descriptor, and without an address space. |
| `KernelCreate.RevocationUndoesJoining` | src/kernel/exec.rs:378-388 | Revoking a task that was registered and has inherited restores domains and records. |
| `KernelCreate.StartedOutcome` | src/kernel/exec.rs:390-431 | Starting the first thread either adds exactly one counted thread or takes process and thread back out. |
| `KernelCreate.CreateFromOutcome` | src/kernel/exec.rs:373-434 | Exactly when task creation succeeds, and what each table holds after success and after each of the three rollbacks. |
| `KernelTheorems.FailedCreationRestores` | src/kernel/exec.rs:373-431 | A failure after registration restores process table, thread table, queues, domains and records, and the counts exactly when none saturated, which exact counts never do. |
| `KernelTheorems.FailedCloneRetains` | src/kernel/exec.rs:361-365 | When the address space cannot be cloned the inherited references stay counted: the balance stays exact exactly when the parent had no descriptors. |
| `KernelTheorems.FailedShellRetains` | src/kernel/exec.rs:454-473 | A process clone keeps counts exact exactly unless it was authorised, found a slot, opened its consoles and then could not copy or share the address space. |
| `KernelTheorems.LeakIsForever` | src/kernel/exec.rs:342-473 | After a leak some description is open in every later state of the run, counted above the slots that name it. |
| `KernelTheorems.ExactUntilLeak` | src/kernel/exec.rs:115-564 | In every run from exact counts, they are exact in a state exactly when nothing has leaked on the way to it. |
| `KernelTheorems.FailedLoadLeavesThread` | src/kernel/exec.rs:143-149 | When the image of a spawned task does not load, the process is taken back out but its thread entry stays. |
| `KernelTheorems.ReimagedIfCarried` | src/kernel/mod.rs:3914-3962 | An image is replaced exactly when there is a thread to carry it: the one given, one of the process's own, or a free slot. |
| `KernelTheorems.FailedExecStrips` | src/kernel/exec.rs:204-231 | A failed exec leaves every domain; it leaves the capability table as it was, or without any record of the caller if it came as far as registration. |
| `KernelTheorems.ExecDisturbs` | src/kernel/exec.rs:199-231 | Once authorised, whatever its outcome, an exec leaves the counts alone exactly when no descriptor closes on exec, and the thread table exactly when the thread that carries the image is the caller's only one and ready, or it has none and gets none. |
| `KernelTaskWitnesses.StrippedByExec` | src/kernel/exec.rs:204-231 | A run from boot that fills the capability table, after which an exec fails and has taken the caller's record. |
| `KernelTaskWitnesses.ClosedByFailedExec` | src/kernel/exec.rs:199-231 | A run from boot after which an exec that the scheduler refuses has closed a descriptor. |
| `KernelWitnesses.RetainedDescriptors` | src/kernel/exec.rs:361-365 | A run from boot in which a spawn whose address space cannot be cloned leaves descriptors counted that no slot names. |
| `KernelTaskWitnesses.RetainedByClone` | src/kernel/exec.rs:464-473 | A run from boot in which a task without an address space is cloned to share it, and descriptors stay counted that no slot names. |
| `KernelTaskWitnesses.OrphanedThread` | src/kernel/exec.rs:143-149 | A run from boot after which a thread belongs to a process that is not in the table. |
| `KernelIpc.SendQueues` | src/kernel/mod.rs:1863-1899 | A send appends one message to the receiver's queue or leaves all queues alone. |
| `KernelIpc.SendFailure` | src/kernel/mod.rs:1863-1899 | A failed send leaves the queues unchanged exactly when it did not fail for a blocked receiver that could not be made ready. |
| `KernelWitnesses.StrandedMessage` | src/kernel/mod.rs:1880-1884 | A run from boot in which a send to a blocked task that cannot be made ready fails and leaves its message queued. |
| `KernelIpc.SendKeeps` | src/kernel/mod.rs:1863-1899 | A send is addressed to the live process in the slot it is queued in. |
| `KernelIpc.ReceiveKeeps` | src/kernel/mod.rs:1901-1906 | A receive keeps every remaining message addressed to its slot. |
| `KernelIpc.ExitKeepsIpc` | src/kernel/mod.rs:1690-1724 | Exit empties the queue and revokes the domain, so nothing can be sent to a zombie. |
| `KernelIpc.StepKeepsIpc` | src/kernel/mod.rs:1690-1916 | In every step each queued message names the live, non-zombie process in its slot, empty and zombie slots have empty queues, and domains belong to live processes. |
| `KernelOrder.DeliveryRaisesFloor` | src/kernel/mod.rs:1901-1916 | A delivered message is addressed to its caller and everything it may still receive is numbered later. |
| `KernelOrder.DeliveryIsInOrder` | src/kernel/mod.rs:1863-1916 | Over a run below wrap-around each receiver sees strictly increasing sequence numbers. |
| `KernelOrder.InitialIsSound` | src/kernel/mod.rs:1006-1031 | A new kernel satisfies the whole invariant with exact counts. |
| `KernelWait.ParentWokenMissesNone` | src/kernel/mod.rs:4074-4103 | Whatever the scheduler answers, telling the parent clears the one wait the exit could have missed. |
| `KernelWait.ExitMissesNone` | src/kernel/mod.rs:1690-1724 | After an exit nobody waits, by pid or for any child, for a child that has already exited. |
| `KernelWait.WaitMissesNone` | src/kernel/mod.rs:3974-4043 | A wait is recorded only when no matching child has exited. |
| `KernelWait.StepMissesNone` | src/kernel/mod.rs:3974-4111 | No step leaves a process waiting for a child, or for any child, that has exited; a wait for a process group is missed exactly in a step that moves a zombie into the group its parent waits for. |
| `KernelTheorems.SoundStepMissesNone` | src/kernel/mod.rs:2164-2192 | The same from every sound state, waits for groups included. |
| `KernelTheorems.GroupWaitsMissNone` | src/kernel/mod.rs:3974-4043 | In every run without such a step no wait, for a child, any child or a group, misses an exit. |
| `KernelTaskWitnesses.MissedByGroup` | src/kernel/mod.rs:2164-2192 | A run from boot in which a child leaves its group, exits and is moved back, and its parent still waits for the group. |
| `KernelTheorems.ReportedOnce` | src/kernel/mod.rs:3974-4111 | Over a whole run each child exit is returned by at most one wait. |
| `KernelTheorems.ExitStaysPending` | src/kernel/mod.rs:3974-4111 | An exit stays in the table with its parent and status until a wait returns it. |
| `KernelTheorems.PendingIsWaitable` | src/kernel/mod.rs:3974-4017 | A pending exit is what the parent gets when it waits for that child, and a wait for any child finds one. |
| `KernelTheorems.BlockingKeepsLife` | src/kernel/mod.rs:1908-1916 | Blocking for a message keeps every process live or dead exactly when the caller is live or the scheduler refuses: a zombie caller would turn blocked. |
| `KernelTheorems.WaitingKeepsLife` | src/kernel/mod.rs:4019-4043 | Waiting for a running child does so under the same condition. |
| `KernelTheorems.OpeningKeepsFiles` | src/kernel/mod.rs:3307-3328 | Opening a file keeps descriptors and counts in order exactly when the caller is live or no description is free. |
| `KernelWitnesses.ExitedCallerDisturbs` | src/kernel/mod.rs:1908-1916 | A run from boot in which a task exits and would then, calling, turn blocked or hold a descriptor as a zombie. |
| `KernelTaskWitnesses.ExitedParentWaits` | src/kernel/mod.rs:4019-4043 | A run from boot in which a task spawns a child, exits, and would turn blocked if it waited for the child. |
| `KernelThreads.WakingIsAllOrNothing` | src/kernel/mod.rs:5048-5087 | A wake-up leaves no thread blocked, or fails and restores the thread table exactly when no thread before the stuck one was ready already. |
| `KernelTaskWitnesses.WakingBlocks` | src/kernel/mod.rs:5048-5087 | A run from boot after which a wake-up fails and leaves a ready thread blocked. |
| `KernelThreads.CreateThreadKeeps` | src/kernel/mod.rs:5114-5129 | Creating a thread keeps every live process's count equal to its entries. |
| `KernelThreads.RemoveThreadKeeps` | src/kernel/mod.rs:1726-1738 | Terminating or rolling back a thread does too. |
| `KernelThreadSteps.ReimagedCounts` | src/kernel/mod.rs:3893-3972 | Replacing an image keeps counts equal to entries exactly when the thread it is told to keep is absent, unknown or the caller's own. |
| `KernelWitnesses.ForeignThreadMiscounts` | src/kernel/mod.rs:3914-3962 | A run from boot after which replacing an image with another process's thread counts one thread and has none. |
| `KernelThreadSteps.StepKeepsThreads` | src/kernel/mod.rs:5089-5166 | Every step keeps counts equal to entries for live processes, and ids distinct and below the next one. |
| `KernelRuns.StepProgress` | src/kernel/mod.rs:1690-4111 | Every step moves each process slot along its life cycle: it keeps its process, takes one with the next id, sees it exit, or loses it to the wait that reports it. |
| `KernelRuns.StepKeepsInvariant` | src/kernel/exec.rs:115-564 | Every admissible step keeps the descriptor, thread, message, wait and id invariants together. |
| `KernelTheorems.EveryStateIsSound` | src/kernel/exec.rs:115-564 | They hold in every state of every run, with exact counts as long as nothing leaked. |
| `KernelCallers.StepLeavesNoGhost` | src/kernel/mod.rs:5089-5166 | A step called from a thread in the table leaves no thread entry for a process that has exited. |
| `KernelCallers.ByThreadIsAdmissible` | src/kernel/mod.rs:5089-5166 | Without such entries a call from a thread in the table comes from a process that has not exited. |
| `KernelCallers.ThreadRunIsRun` | src/kernel/exec.rs:115-564 | Every run of calls by table threads, each exec naming none but its own, is a run of admissible steps, so every theorem about runs holds of it with nothing assumed of the callers' processes. |
| `KernelCallers.InitialIsUnhaunted` | src/kernel/mod.rs:1006-1031 | A new kernel has no thread of an exited process. |
| `KernelCallers.CloningHaunts` | src/kernel/exec.rs:236-293 | Cloning a thread gives an exited process a thread exactly when the process has exited, a slot is free and the scheduler takes it. |
| `KernelTaskWitnesses.HauntedRun` | src/kernel/exec.rs:236-293 | A run from boot in which a task exits and is given a thread. |
| `KernelTheorems.GoneStaysGone` | src/kernel/mod.rs:5224-5228 | A process id that has left the table never comes back. |
| `KernelOrder.ThreadStaysGone` | src/kernel/mod.rs:5230-5234 | A thread id that has left the table never comes back. |
| `Kernel.KernelTables.constructor` | src/kernel/mod.rs:1006-1031 | Empty tables, ids from one. |
| `Kernel.KernelTables.LocateProcess` | src/kernel/mod.rs:5198-5209 | The first slot of the process. |
| `Kernel.KernelTables.LocateThreadIndex` | src/kernel/mod.rs:5211-5222 | The first slot of the thread. |
| `Kernel.KernelTables.FindFreeSlot` | src/kernel/mod.rs:5176-5185 | The first free process slot. |
| `Kernel.KernelTables.FindFreeThreadSlot` | src/kernel/mod.rs:5187-5196 | The first free thread slot. |
| `Kernel.KernelTables.BlockThreadsForProcess` | src/kernel/mod.rs:5034-5046 | Blocks exactly the process's threads. |
| `Kernel.KernelTables.ClearChildWaitThreads` | src/kernel/mod.rs:4062-4072 | Clears the wait of exactly the process's threads. |
| `Kernel.KernelTables.RemoveThreadsForProcess` | src/kernel/mod.rs:5089-5104 | Removes exactly the process's threads. |
| `Kernel.KernelTables.RollbackReadyThreads` | src/kernel/mod.rs:5072-5087 | Blocks exactly the process's ready threads before the index. |
| `Kernel.KernelTables.MakeThreadsReady` | src/kernel/mod.rs:5048-5070 | Refines the all-or-nothing wake-up. |
| `Kernel.KernelTables.BlockProcessAtIndex` | src/kernel/mod.rs:5029-5032 | Refines the suspend step. |
| `Kernel.KernelTables.SendMessage` | src/kernel/mod.rs:1863-1899 | Refines the send step, rollback of the last push included. |
| `Kernel.KernelTables.WakeReceiver` | src/kernel/mod.rs:1886-1896 | The receiver is ready with its threads woken, or blocked again as far as the scheduler allows with its newest message taken back. |
| `Kernel.KernelTables.ReceiveMessage` | src/kernel/mod.rs:1901-1906 | Refines the receive step. |
| `Kernel.KernelTables.ReceiveOrBlockMessage` | src/kernel/mod.rs:1908-1916 | Refines the receive-or-block step. |
| `Kernel.KernelTables.UpdateProcessThreadCount` | src/kernel/mod.rs:5156-5166 | Moves exactly the process's saturating count. |
| `Kernel.KernelTables.NewThread` | src/kernel/mod.rs:5114-5129 | Refines thread creation. |
| `Kernel.KernelTables.TerminateThread` | src/kernel/mod.rs:1726-1738 | Refines thread removal. |
| `Kernel.KernelTables.WakeParentChildWaiters` | src/kernel/mod.rs:4074-4103 | Refines telling the parent. |
| `Kernel.KernelTables.RecordChildWait` | src/kernel/mod.rs:4019-4043 | Refines recording a wait. |
| `Kernel.KernelTables.ClearChildWait` | src/kernel/mod.rs:4045-4060 | Refines clearing a wait. |
| `Kernel.KernelTables.WaitForChild` | src/kernel/mod.rs:3974-4017 | Refines the wait step in all its outcomes. |
| `Kernel.KernelTables.ScanChildren` | src/kernel/mod.rs:3984-4009 | The first matching zombie and, without one, whether any child matches. |
| `Kernel.KernelTables.InsertDescription` | src/kernel/fs/file.rs:379-392 | One reference in the first free place, or a full table. |
| `Kernel.KernelTables.IncrementRefCount` | src/kernel/fs/file.rs:429-437 | One reference more, saturating, on an open description only. |
| `Kernel.KernelTables.CloseOpenDescription` | src/kernel/mod.rs:4429-4447 | One reference less, closed at zero. |
| `Kernel.KernelTables.ReleaseFiles` | src/kernel/mod.rs:4412-4427 | The release loop lowers each description by the slots that name it. |
| `Kernel.KernelTables.InheritFiles` | src/kernel/mod.rs:4376-4410 | The retain loop raises each description by the slots that name it, or releases what it retained. |
| `Kernel.KernelTables.EnsureConsoleDescriptor` | src/kernel/mod.rs:4323-4347 | Fills an empty console slot with a fresh description. |
| `Kernel.KernelTables.EnsureProcessConsoleDescriptors` | src/kernel/mod.rs:4315-4321 | Both console slots in order. |
| `Kernel.KernelTables.FreeDescriptorFrom` | src/kernel/process.rs:429-444 | The first free descriptor from the minimum on. |
| `Kernel.KernelTables.OpenFile` | src/kernel/mod.rs:3307-3328 | Refines the open step. |
| `Kernel.KernelTables.CloseFile` | src/kernel/mod.rs:3330-3337 | Refines the close step. |
| `Kernel.KernelTables.DuplicateFd` | src/kernel/mod.rs:4251-4272 | Refines the dup step. |
| `Kernel.KernelTables.DuplicateFdTo` | src/kernel/mod.rs:4274-4306 | Refines the dup2 and dup3 step. |
| `Kernel.KernelTables.ExitProcess` | src/kernel/mod.rs:1690-1724 | Refines the exit step. |
| `Kernel.KernelTables.FinishBlock` | src/kernel/exec.rs:368-372 | Console descriptors, or everything released. |
| `Kernel.KernelTables.PrepareBlock` | src/kernel/exec.rs:342-372 | Refines the preparation of a new task, early return included. |
| `Kernel.KernelTables.PrepareShellBlock` | src/kernel/exec.rs:436-471 | Refines the preparation of a cloned process, early return included. |
| `Kernel.KernelTables.EnrollTask` | src/kernel/exec.rs:373-388 | Register, derive, enter, with both rollbacks. |
| `Kernel.KernelTables.WithdrawTask` | src/kernel/exec.rs:397-404 | Slot, descriptors and domain taken back. |
| `Kernel.KernelTables.RollbackProcessShell` | src/kernel/exec.rs:490-500 | The same after locating the process. |
| `Kernel.KernelTables.StartTask` | src/kernel/exec.rs:390-431 | First thread and scheduler calls with their rollbacks. |
| `Kernel.KernelTables.CreateProcessTask` | src/kernel/exec.rs:342-434 | Refines task creation as a whole. |
| `Kernel.KernelTables.SpawnTask` | src/kernel/exec.rs:115-128 | Refines the spawn step. |
| `Kernel.KernelTables.SpawnLoadedTask` | src/kernel/exec.rs:131-168 | Refines spawning from an image. |
| `Kernel.KernelTables.CloneIntoGroup` | src/kernel/exec.rs:236-293 | Refines cloning a thread into the caller's group. |
| `Kernel.KernelTables.CloneIntoProcess` | src/kernel/exec.rs:236-293 | Refines cloning into a new process. |
| `Kernel.KernelTables.CloseOnExec` | src/kernel/process.rs:482-495 | Splits a table into what exec keeps and closes. |
| `Kernel.KernelTables.FindKeptThread` | src/kernel/mod.rs:3914-3926 | The thread that carries the new image. |
| `Kernel.KernelTables.RemoveOtherThreads` | src/kernel/mod.rs:3928-3936 | Removes exactly the caller's other threads. |
| `Kernel.KernelTables.ReplaceProcessImage` | src/kernel/mod.rs:3893-3962 | Refines image replacement up to the scheduler calls. |
| `Kernel.KernelTables.ExecTask` | src/kernel/exec.rs:199-231 | Refines the exec step. |

## Left out

- UserMemory.UserMemory.CloneUserAddressSpace: assumes paging hands out a root that no table names yet.
- Timers.TimerManager.WakeExpiredTimeouts: terminates when no periodic timer is due at the largest time, which `Timers.DrainNeverEnds` shows to be necessary; waking the processes is not modelled.
- Paths.KernelPathBuf.constructor: for text that fits; `Paths.KernelPathBuf.FromStr` handles the rest.
- Paths.KernelPathBuf.PopComponent: for buffers that hold a joined path with any trailing slashes, the only ones resolution makes.
- Paths.KernelPathBuf.PushComponent: the same.
- Paths.ResolvePathStr: starts from a normalised directory at or below the root, which resolution itself produces; looking the directory up is not modelled.
- InitialStack.BuildInitialStack: mapping and zeroing the stack is not modelled; reading the argument strings is a parameter.
- Heap.MemoryManager.Allocate: which growth the paging layer answers is a parameter; heap bytes are a sequence that methods reassign, so pointer aliasing is not captured.
- KernelTheorems.EveryStateIsSound: assumes that a process that has exited does not block, wait or open, and that exec names no thread of another process; the exact conditions show both to be needed, and `KernelCallers.ThreadRunIsRun` shows that calls by threads in the table, each exec naming one of the caller's own or none, meet them.
- KernelRuns.StepKeepsInvariant: the same for one step.
- KernelOrder.DeliveryIsInOrder: below wrap-around of the 64-bit sequence counter.
- KernelForest.EveryStateIsRooted: before wrap-around of the 64-bit capability id counter.
- Security.EveryRunKeepsForest: before wrap-around of the 64-bit capability id counter.
- Kernel.KernelTables.CreateProcessTask: needs process ids below the next one, as they are in every state by `KernelTheorems.EveryStateIsSound`.
- Kernel.KernelTables.CloseOpenDescription: closing the object at the file system, and pipes and event descriptors behind it, are not modelled; descriptions are reference counts.
- Kernel.KernelTables.ExitProcess: releasing memory, timers and futexes and signalling the parent are not modelled.
- Kernel.KernelTables.SpawnLoadedTask: the new image's address space and entry point are not modelled.
- Kernel.KernelTables.CloneIntoGroup: validating the flags and reading the caller's context are not modelled.
- Kernel.KernelTables.CloneIntoProcess: the same.
- Kernel.KernelTables.ExecTask: switching to the new address space and freeing the old one are not modelled.
- Error codes of the kernel steps are reduced to their outcome; mapping them to libc is not modelled.
- Process and thread id counters are unbounded; the source would overflow after 2^64 creations.
- Message queues in the kernel state are sequences; `Ipc.MessageQueue` proves that the ring behaves as one.
- Sessions are not modelled; whether two processes share one is a parameter of moving a process to a group.
- Signals, futexes, pipes, timers and core dispatch are not part of the kernel steps; neither are priorities, credentials other than the domain's, and register contexts.
- Releasing the memory of an exiting process is modelled in `UserMemory`, not in the exit step.
- Paging, drivers, the scheduler, the file systems, boot orchestration, the syscall dispatcher and libc wrappers are outside the model.
- The rest of the subkernel's authorisation calls (devices, services, memory mappings) would only add decisions of the kind shown.
