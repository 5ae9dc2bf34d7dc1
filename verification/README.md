# A verified model of the RISC-V-OS1000 kernel

The kernel is a small single-hart RV32 system. Its tables live in one address space and are updated in
place: a region table that splits and merges page ranges, two-level Sv32 page tables built lazily in
allocated pages, a process table, reference-counted shared pages, virtqueues shared with devices, a tar
archive in a disk buffer, and the small tables of the network stack. This project models those tables and
the calls that change them, and proves what they promise together.

Each part comes in two forms. The data and the calls are written as values and functions, and the theorems
are lemmas about them. Beside them stand classes whose methods update arrays and fields step by step, with
the loops of the kernel; every such method is proved equal to the function that describes it.

| file | models |
|---|---|
| `Machine.dfy`, `PageTables.dfy` | pages of bytes, words, page-table entries, the Sv32 walk |
| `Regions.dfy`, `MergeOrder.dfy`, `Coalescing.dfy`, `Heap.dfy`, `Room.dfy`, `PageAllocator.dfy` | the page allocator |
| `KernelState.dfy`, `KernelObject.dfy` | processes, address spaces and shared memory: the calls as functions and as methods |
| `Ownership.dfy`, `Mapping.dfy`, `Creation.dfy`, `Invariant.dfy` | who owns which page, framing of page tables, the kernel invariant |
| `Capacity.dfy` | when `create_process`, `shm_get` and `shm_attach` return |
| `CreateSafe.dfy`, `SharedMemory.dfy`, `Detaching.dfy`, `ShmAnswers.dfy`, `ExitSafe.dfy` | each kernel call keeps the invariant |
| `Isolation.dfy`, `Runs.dfy`, `RunFacts.dfy`, `Scheduler.dfy` | user mode, devices, whole runs, round robin |
| `UserView.dfy` | addresses and permissions in numbers; stores from user mode arrive |
| `Leaks.dfy`, `Limits.dfy` | regions that are lost for good; the limits of the kernel as linked, with runs from boot that hit them |
| `Virtqueue.dfy`, `NetProtocol.dfy`, `BlkProtocol.dfy` | virtqueues, descriptors, drivers, devices and interrupt handlers interleaved |
| `NetProgress.dfy`, `BlkProgress.dfy` | sends, receives and disk calls can always be brought to an end |
| `CaptureRing.dfy`, `Receiving.dfy` | the capture ring, and the receive path from device to caller |
| `Checksum.dfy`, `Ipv4.dfy`, `Ipv4Checks.dfy`, `Arp.dfy` | the network stack |
| `TarFormat.dfy`, `TarRoundTrip.dfy`, `Filesystem.dfy` | the tar archive |

## How the model reads the code

- A PANIC never returns, so it is an outcome `Stopped`; what a call promises is promised when it returns, and
  `Capacity.dfy` and `Runs.BootInv` say exactly when that is.
- A process records its regions in a 64-entry array without a bound check (include/process.h:4). Storing a
  65th index is the outcome `RegionTableFull`: the C program has no defined behaviour there, and runs end.
  As linked, with 64 MB of RAM, that happens to every image of more than 43 pages, and to the first
  `shm_attach` of a process with exactly 43. The clearing loops that run to 128 over that array
  (kernel/process.c:62, 172) are modelled on 64 entries.
- Physical memory is a map from page numbers to 4096 bytes over the free RAM; page tables, images and
  shared pages all live in it. Word and PTE arithmetic is 32-bit. The RAM limits are a parameter; the
  kernel base, device addresses and window addresses are the kernel's own constants.
- Region index 0 can be handed out once another region has absorbed slot 0, but `release_process` reads a
  recorded 0 as an empty entry (kernel/process.c:82). The model does the same, so an exiting process loses
  the region with index 0 and no other (`Leaks.ExitLeaksIff`), it stays lost over every run
  (`Leaks.LeakedForever`), and a run from boot gets there (`Limits.RegionZeroLost`).
- `shm_init` starts ids at 1 and they grow without bound here; in C the counter is an `int`.
- Interrupt handlers run between the steps of the interrupted code only while SIE is set. The device may do
  anything section 2.6 of VirtIO 1.1 allows, in any order, with the used entry visible before its status bit.
  WFI may return at any time, as it does when another device interrupts.
- A device finds its buffers through the descriptors it is given, and only touches what they let it touch.
- `virtq_is_busy`, which nothing calls, tells the opposite of what it should between the two stores of
  `virtq_kick`; elsewhere it is right (`NetProtocol.BusyMeaning`, `BlkProtocol.BusyMeaning`).
- A changed IPv4 header is not always noticed: beside the change between 0x0000 and 0xffff that no sum modulo
  65535 can see, one that lengthens the header takes payload words into the sum. `Ipv4Checks.dfy` gives the
  exact condition and an example.
- One merge pass is documented as merging fragments; it does not always merge all of them. `MergeOrder.dfy`
  gives the exact condition for any table, `Coalescing.dfy` an example from boot.
- `hide` statements in proofs only withhold definitions from the verifier.

## Model

| member | source | states |
|---|---|---|
| Machine.PteRoundTrip | kernel/process.c:275-281 | decoding a page-table entry gives back the frame number and the permission bits it was built from |
| Machine.WordAfterSet | kernel/process.c:275-281 | a word store into a page is read back and changes no other word |
| Machine.PteBits | kernel/process.c:275-281 | the bits of an entry one by one: V, R, W, X, U, a gap, and the frame number from bit 10 on |
| Machine.LittleEndian | kernel/process.c:275-281 | a stored word lies in memory low byte first |
| Regions.InitTiled | kernel/allocator.c:13-23 | the initial table tiles the free RAM |
| Regions.CarveTiled | kernel/allocator.c:36-50 | splitting an allocation off a free region keeps the tiling, moves no earlier allocation and hands out only free bytes |
| Regions.FindFit | kernel/allocator.c:95-103 | the first free region that is large enough, or none |
| Regions.FindUnused | kernel/allocator.c:86-93 | the first unused slot, or none |
| Regions.AbsorbTiled | kernel/allocator.c:112-118 | absorbing the following region keeps the tiling, the free bytes and all allocations, and uses up one slot |
| Regions.MergePassFacts | kernel/allocator.c:105-121 | a merge pass keeps tiling, allocations and the exact set of free bytes; it uses up a slot if and only if two free regions are adjacent, and otherwise changes nothing |
| Regions.CoalescedFully | kernel/allocator.c:105-121 | repeated passes terminate and end with no adjacent free regions and the same free bytes |
| Regions.ReleaseFacts | kernel/allocator.c:57-70 | releasing a region frees exactly its bytes and leaves every other allocation in place |
| MergeOrder.FoundWhenTaken | kernel/allocator.c:109-113 | at the turn of a region, the inner loop meets every region that the order of slots says it takes |
| MergeOrder.TakenWhenFound | kernel/allocator.c:109-113 | and it meets no other |
| MergeOrder.PassExactly | kernel/allocator.c:105-121 | on any table: which free regions one pass takes over, decided by the slot numbers read once in address order, and that it leaves adjacent free regions if and only if some region that follows a free one is not taken |
| Coalescing.ReleaseCoalescesIff | kernel/allocator.c:66-69 | when the single pass of `release_pages` leaves adjacent free regions: on any table by that condition; on a fully merged one exactly when both neighbours of the released region are free and sit in lower slots |
| Coalescing.PassLeavesOnlyPeaks | kernel/allocator.c:105-121 | a simple consequence: without a free region whose neighbours are both free and in lower slots, one pass merges everything |
| Coalescing.PeakMayMerge | kernel/allocator.c:105-121 | why the simple condition is not the exact one: four adjacent free regions in slots 4, 1, 3, 2 have such a peak and one pass merges them all |
| Coalescing.CarveKeepsCoalesced | kernel/allocator.c:36-50 | allocation never creates adjacent free regions |
| Coalescing.OnePassIsNotEnough | kernel/allocator.c:105-121 | two allocations and two releases from boot after which one pass has left adjacent free regions |
| Heap.AllocFacts | kernel/allocator.c:25-55 | an allocation returns a fresh slot of the requested size over zeroed pages that nobody held |
| Heap.AllocStopsIff | kernel/allocator.c:26-34 | "out of memory" exactly when no free region fits the 32-bit byte size or no slot is unused, even for an exact fit |
| Heap.ReleaseStopsIff | kernel/allocator.c:57-64 | which of its two panics `release_pages` reaches, exactly |
| Heap.AllocatedApart | kernel/allocator.c:25-55 | no page lies in two distinct allocations |
| Room.TakePageIff | kernel/allocator.c:25-34 | a page can be allocated if and only if some byte is free and some slot unused |
| Room.RoomTakes | kernel/allocator.c:25-55 | a row of one-page allocations needs that many free pages, and succeeds when as many slots are unused besides |
| Room.FrontAlloc | kernel/allocator.c:25-55 | until something is released, an allocation succeeds if and only if it fits the rest of the RAM and a slot is left, and the table keeps its shape |
| PageAllocator.Allocator.constructor | kernel/allocator.c:13-23 | the table after `init_regions` |
| PageAllocator.Allocator.FindUnusedRegionSlot | kernel/allocator.c:86-93 | the loop finds the first unused slot |
| PageAllocator.Allocator.FindSuitableFreeRegion | kernel/allocator.c:95-103 | the loop finds the first fit |
| PageAllocator.Allocator.AllocRegionSlot | kernel/allocator.c:25-55 | the in-place update is the specified allocation, or an unchanged table and a stop |
| PageAllocator.Allocator.AllocPages | kernel/allocator.c:82-85 | slot and address of the new region; the second state check never fires |
| PageAllocator.Allocator.RegionToAddr | kernel/allocator.c:72-80 | the address of an allocated region; which of the two stops for which other index |
| PageAllocator.Allocator.MergeFreeRegions | kernel/allocator.c:105-121 | the nested in-place loops perform exactly one merge pass |
| PageAllocator.Allocator.ReleaseRegion | kernel/allocator.c:57-70 | the specified release, or the matching stop |
| PageTables.LeafWalk | kernel/process.c:278-281 | writing one second-level entry changes the translation of exactly one virtual page |
| PageTables.InstallWalk | kernel/process.c:270-276 | linking in a zeroed second-level table changes no translation |
| PageTables.WalkFrame | kernel/process.c:261-298 | stores outside a process's pages leave all its translations alone |
| Mapping.MapPageRefines | kernel/process.c:261-282 | `map_page` changes exactly one key of the map the tables represent, also when it allocates a table, and disturbs no other owner |
| Mapping.UnmapPageRefines | kernel/process.c:284-298 | `unmap_page` removes exactly one key |
| Creation.MapRangeFacts | kernel/process.c:202-204 | the kernel range maps to itself without U and nothing else changes |
| Creation.MapDevicesFacts | kernel/process.c:207-211 | the five device pages map to themselves without U and nothing else changes |
| Creation.LoadImageFacts | kernel/process.c:214-228 | every image page is copied, zero padded, into a private page and mapped at its place |
| Capacity.PayOutcome | kernel/process.c:201 | a row of pages allocated and recorded succeeds exactly when the allocator has them and the 64-entry record has room, and otherwise stops for whichever runs out first |
| Capacity.MapPageCosts | kernel/process.c:261-282 | `map_page` records one page exactly when its 4 MB range has no table yet, and afterwards it has one |
| Capacity.MapRangeCosts | kernel/process.c:202-204 | the kernel range costs one table for each 4 MB it touches |
| Capacity.MapDevicesCosts | kernel/process.c:207-211 | each device page costs a table unless an earlier page shares its 4 MB range |
| Capacity.LoadImageCosts | kernel/process.c:214-228 | an image costs its pages and one table |
| Capacity.CreateOutcome | kernel/process.c:157-235 | the number of indices `create_process` records, exactly when it returns, and which of its three stops it reaches otherwise |
| Capacity.CreateFitsIff | kernel/process.c:157-235 | with room in the allocator, `create_process` returns if and only if it needs at most 64 indices, and otherwise overruns the record |
| Capacity.AttachOutcome | kernel/shm.c:74-98 | `shm_attach` allocates only for the first attach of a process, and exactly when it stops and why |
| Capacity.GetOutcome | kernel/shm.c:47-72 | `shm_get` stops exactly when it has to make an object and there is no page |
| CreateSafe.CreateFacts | kernel/process.c:157-235 | `create_process` returns if and only if it can; then the complete layout of the new address space, and no other process, object or device is touched |
| CreateSafe.ImageLoaded | kernel/process.c:214-228 | for every image that fits, every image byte is found at `USER_BASE` plus its offset, and the rest of the last page reads zero |
| CreateSafe.CreateInv | kernel/process.c:157-235 | `create_process` keeps the invariant |
| SharedMemory.ShmGetInv | kernel/shm.c:47-72 | `shm_get` keeps the invariant and disturbs nobody |
| SharedMemory.ShmAttachInv | kernel/shm.c:74-98 | `shm_attach` keeps the invariant: counts, mappings and translations agree |
| Detaching.DetachSlotInv | kernel/shm.c:100-127 | a mapping in use can always be detached; the object goes with its last mapping, not before |
| Detaching.ShmDetachInv | kernel/shm.c:100-130 | `shm_detach` never stops, keeps the invariant, and answers -1 exactly when nothing is mapped there |
| Detaching.UnheldRelease | kernel/shm.c:114-123 | releasing a page that nobody has on record disturbs no owner |
| ShmAnswers.ShmGetAnswer | kernel/shm.c:47-72 | when `shm_get` fails, which object the id names, and that a new object is zeroed with a new id |
| ShmAnswers.ShmAttachAnswer | kernel/shm.c:74-98 | when `shm_attach` gives 0, and what the address it gives translates to before and after |
| ShmAnswers.ShmDetachAnswer | kernel/shm.c:100-130 | after a successful detach the address translates to nothing |
| ShmAnswers.StoreIsSeen | kernel/process.c:261-282 | a user store is read back exactly by those who reach the same physical byte |
| UserView.TableSizes | include/process.h:3-5 | eight processes with 64 region indices and four mappings each, eight objects |
| UserView.NewSpaceInNumbers | kernel/process.c:202-228 | every page of a new address space by number, with its R, W, X and U bits, and that nothing else is mapped |
| UserView.ImageWritable | kernel/process.c:214-228 | a new process can store to every byte of its image pages and reads it back |
| UserView.AttachGives | kernel/shm.c:79-97 | the address is 0x1700000 plus 4096 times the first unused slot |
| UserView.MappingsShare | kernel/shm.c:74-98 | what is stored through one mapping of an object is read through every other |
| UserView.SharedBytes | kernel/shm.c:74-98 | when an object is attached twice, by two processes or by one, every byte stored at the first address is read at the second |
| UserView.UnalignedStops | kernel/process.c:263-267 | `map_page` and `unmap_page` panic for exactly the unaligned addresses |
| ExitSafe.CleanupFacts | kernel/shm.c:132-137 | cleanup removes all mappings of the process and exactly the objects only it had mapped |
| ExitSafe.ReleaseRegionsFacts | kernel/process.c:81-86 | releasing a process's recorded regions never stops and frees exactly those with non-zero index |
| ExitSafe.ReleaseProcessFacts | kernel/process.c:78-98 | exit frees exactly the process's regions with non-zero index and the shared pages only it had mapped, and nothing of any other owner |
| Isolation.ProcessesIsolated | kernel/process.c:157-298 | two processes reach the same page from user mode only through a live object both have attached |
| Isolation.KernelUnreachable | kernel/process.c:202-211 | no page table, device buffer or page outside the free RAM is reachable from user mode |
| Isolation.UserStoreInv | kernel/shm.c:74-98 | a user store keeps the invariant and every translation, and touches no page of another process |
| Isolation.DmaWriteInv | kernel/virtio.c:65-79 | a device writing into its own regions affects no process |
| Runs.BootInv | kernel/kernel.c:208-218 | the kernel comes up if and only if the RAM, the region table and the record hold the device buffers and the idle process; then all tables agree |
| Runs.InitProcessesInv | kernel/process.c:56-76 | `init_processes` returns if and only if the idle process can be created; it then has pid 0 and runs |
| Runs.ExitFacts | kernel/syscall.c:30-34 | exit never stops, frees what it must, makes the slot unused, and restarts the scan at slot 0 |
| Runs.YieldInv | kernel/process.c:100-142 | `yield` keeps the invariant and picks a runnable process or idle |
| Runs.StepInv | kernel/syscall.c:12-94 | every call, exit, yield, user store and device write keeps the invariant |
| Runs.RunInv | kernel/process.c:56-298 | every state of every run satisfies the invariant |
| Runs.RunIsolated | kernel/process.c:56-298 | isolation in every state reached from boot |
| RunFacts.RunUndisturbs | kernel/process.c:100-298 | over any run in which a process does not run, its tables and all its pages keep their contents |
| RunFacts.RetiredForever | kernel/shm.c:18-24 | an id whose object was freed never resolves again, over any run |
| Scheduler.EachOncePerRound | kernel/process.c:108-115 | with a fixed runnable set every runnable slot runs exactly once per round, in cyclic order |
| Scheduler.StretchFollows | kernel/process.c:100-142 | over any stretch of a run without create and exit the runnable set stays, and the CPU is where as many turns as there were yields lead |
| Scheduler.RoundRobin | kernel/process.c:100-142 | over such a stretch of any length, a runnable process has the CPU at the end exactly when the last yield was its turn in the round |
| Scheduler.UnusedNeverRuns | kernel/process.c:78-142 | the slot of an exited process stays unused and never gets the CPU until a process is created |
| Scheduler.BootIdle | kernel/process.c:72-75 | in every state reached from boot the idle process is in slot 0 |
| Scheduler.IdleOnlyIfNone | kernel/process.c:104-115 | idle is chosen exactly when no process with positive pid is runnable |
| Leaks.ExitLeaksIff | kernel/process.c:81-86 | of the regions a process has on record, its exit loses exactly the one with index 0 |
| Leaks.LeakedForever | kernel/process.c:56-298 | a region that is allocated but on nobody's record stays so over every run |
| Limits.LargestImage | linker/kernel.ld:31-33 | as linked, an image loads if and only if it has at most 43 pages, and a larger one overruns the record |
| Limits.BootsHere | kernel/kernel.c:208-218 | the kernel as linked boots, with 26 regions handed out |
| Limits.FirstAttachOverflows | include/process.h:4 | a run from boot in which a 43-page process overruns its record on its first `shm_attach` |
| Limits.SlotZeroHandedOut | kernel/allocator.c:57-70 | allocate, release, allocate from boot hands out index 0 |
| Limits.RegionZeroLost | kernel/process.c:81-86 | a run from boot in which a process records index 0 and exits; the region is then lost whatever happens next |
| KernelObject.KernelTables.constructor | kernel/kernel.c:208-209 | the cleared tables after `init_regions` and `shm_init` |
| KernelObject.KernelTables.MapPage | kernel/process.c:261-282 | the in-place update is the specified one, or the matching stop |
| KernelObject.KernelTables.UnmapPage | kernel/process.c:284-298 | likewise |
| KernelObject.KernelTables.Create | kernel/process.c:157-235 | the slot search, page-table loops and image loop build the specified process |
| KernelObject.KernelTables.Init | kernel/process.c:56-76 | `init_processes` on the cleared table |
| KernelObject.KernelTables.StartDrivers | kernel/kernel.c:210-211 | the boot-time allocations of both drivers, in order |
| KernelObject.KernelTables.BootUp | kernel/kernel.c:208-218 | boot as far as memory goes |
| KernelObject.KernelTables.Get | kernel/shm.c:47-72 | the search loops and table update of `shm_get` |
| KernelObject.KernelTables.Attach | kernel/shm.c:74-98 | the searches, mapping and table updates of `shm_attach` |
| KernelObject.KernelTables.Detach | kernel/shm.c:100-130 | the search, unmapping and release of `shm_detach` |
| KernelObject.KernelTables.Cleanup | kernel/shm.c:132-137 | the loop over the mapping slots |
| KernelObject.KernelTables.Release | kernel/process.c:78-98 | cleanup, release loop and reset of the process |
| KernelObject.KernelTables.PickProcess | kernel/process.c:108-115 | the scan for the next process |
| KernelObject.KernelTables.YieldCpu | kernel/process.c:100-142 | release of an exited process, the scan, and the switch |
| Virtqueue.WriteOk | kernel/virtio.c:82-83 | the ring store of a push overwrites nothing the device still has to read |
| Virtqueue.PopOk | kernel/virtio.c:99-107 | a pop succeeds exactly when a completion is unread and gives the oldest one, across counter wrap |
| Virtqueue.FetchOk | kernel/virtio.c:81-87 | the device fetches pushes once each, in order |
| Virtqueue.CompleteOk | kernel/virtio.c:99-107 | a completion overwrites no used entry the driver still has to read |
| Virtqueue.Virtq.Push | kernel/virtio.c:81-87 | `virtq_push` is the ring store followed by the index store |
| Virtqueue.Virtq.Kick | kernel/virtio.c:93-97 | `virtq_kick` also counts the submission |
| Virtqueue.Virtq.PopUsed | kernel/virtio.c:99-107 | `virtq_pop_used` |
| NetProtocol.EnqueueRx | kernel/virtio_net.c:47-54 | the descriptor store, the ring store and the index store of `virtio_net_enqueue_rx` |
| NetProtocol.RxStep | kernel/virtio_net.c:111-151 | every step of driver, device and handler keeps each receive buffer in one place, the ring windows intact, every descriptor right and every unread buffer as the device wrote it |
| NetProtocol.ExactlyOnePlace | kernel/virtio_net.c:47-54 | each of the 16 receive buffers is available, with the device, unpopped or in hand, and only one of these |
| NetProtocol.DescriptorsStable | kernel/virtio_net.c:47-54 | a receive descriptor is stored only while its buffer is in hand, and every descriptor has the address, the 1524 bytes and the flag of its own buffer before and after every step |
| NetProtocol.RxOutstanding | kernel/virtio_net.c:115-147 | 16 buffers are out between iterations and 15 while one is in hand, modulo 65536 |
| NetProtocol.RxPop | kernel/virtio_net.c:115-117 | the handler takes completions in the order the device made them |
| NetProtocol.RxTake | kernel/virtio_net.c:116-132 | what the handler reads out of a buffer is exactly what the device wrote for that completion |
| NetProtocol.FramesPassedOn | kernel/virtio_net.c:111-147 | in every interleaving the handler has passed on the device's data, buffer by buffer, in order |
| NetProtocol.TxStep | kernel/virtio_net.c:186-219 | at most one frame in flight; what the device transmits is what was handed to it |
| NetProtocol.LostStep | kernel/virtio_net.c:163-172 | outside the window from acknowledgement to the end of a queue's drain, an untaken completion has its status bit up or coming, for both queues on one interrupt |
| NetProtocol.StepInv | kernel/virtio_net.c:111-219 | every step of anyone keeps the whole protocol invariant |
| NetProtocol.InitInv | kernel/virtio_net.c:56-92 | `virtio_net_init` establishes it |
| NetProtocol.RunInv | kernel/virtio_net.c:111-219 | it holds in every interleaving |
| NetProtocol.WfiWakes | kernel/interrupt.c:8-16 | no lost wake-up: when the device is done and owes no interrupt, WFI does not sleep |
| NetProtocol.FrameStable | kernel/virtio_net.c:194-216 | while the device has a frame, neither the buffer nor the descriptor is rewritten, and the descriptor shows it exactly that frame |
| NetProtocol.SendReturns | kernel/interrupt.c:3-19 | when the wait returns the queue is empty, exactly the frames handed over were sent in order, and SIE is restored |
| NetProtocol.SieRestored | kernel/interrupt.c:3-19 | SIE changes only inside the wait, which ends with the value it started with |
| NetProtocol.SendOrRefuse | kernel/virtio_net.c:186-192 | a frame of 60 to 1514 bytes is taken when no send is under way, any other is refused |
| NetProtocol.SentAsPassed | kernel/virtio_net.c:186-219 | end to end, over any interleaving from boot: the device transmitted the frames the callers passed, in order, and all of them when no send is under way |
| NetProgress.HandlerDrains | kernel/virtio_net.c:163-172 | a handler that read a used-buffer status acknowledges what it read, passes on everything written, tells the sender, and ends |
| NetProgress.SendCompletes | kernel/virtio_net.c:186-219 | from every state without a send under way there is a way on in which the send returns and exactly that frame more was transmitted |
| NetProgress.ReceiveCompletes | kernel/virtio_net.c:111-151 | what the device writes into a buffer it holds is passed on once the interrupt is taken |
| NetProtocol.OneInFlight | kernel/virtio_net.c:207-216 | `avail.index - consumed_used_index` is 0 or 1, and 0 when a send starts |
| NetProtocol.BusyMeaning | kernel/virtio.c:109-111 | `virtq_is_busy` tells whether a frame is outstanding, except between the two stores of `virtq_kick`, where it tells the opposite |
| BlkProtocol.LinkRequest | kernel/virtio_blk.c:65-78 | the stores that build the three-descriptor chain |
| BlkProtocol.ChainDenotes | kernel/virtio_blk.c:65-78 | followed from descriptor 0, the chain is exactly the issued request: 16 bytes of header, 512 of data in the right direction, one of status |
| BlkProtocol.InitInv | kernel/virtio_blk.c:12-32 | the protocol invariant holds after `virtio_blk_init` |
| BlkProtocol.StepInv | kernel/virtio_blk.c:34-93 | every step of caller, device and handler keeps the protocol invariant |
| BlkProtocol.RunInv | kernel/virtio_blk.c:34-93 | it holds in every interleaving |
| BlkProtocol.CallAtomic | kernel/virtio_blk.c:53-93 | each call takes effect in one step: the medium is the old disk with this request applied, and a successful read gave the old sector |
| BlkProtocol.CallsSequential | kernel/virtio_blk.c:34-93 | end to end, over any interleaving from boot: the calls are those the callers made, in order; they gave what a disk gives that carries out one call after the other; and between calls the medium is that disk |
| BlkProtocol.StartOrRefuse | kernel/virtio_blk.c:53-58 | a call for a sector that exists starts when none is under way; one past the end changes nothing |
| BlkProtocol.SieRestored | kernel/interrupt.c:3-19 | SIE changes only inside the wait, which ends with the value it started with |
| BlkProgress.CallCompletes | kernel/virtio_blk.c:53-93 | from every state reached from boot without a call under way, for every call and every status, there is a way on in which the call returns with that status and the right effect |
| BlkProtocol.RequestStable | kernel/virtio_blk.c:60-83 | while the device owns a request, nobody rewrites its buffer or any descriptor, and the chain it sees is the issued request |
| BlkProtocol.WfiWakes | kernel/interrupt.c:8-16 | no lost wake-up for the block queue |
| BlkProtocol.OneInFlight | kernel/virtio_blk.c:80-83 | at most one request in flight, none when a call starts or its wait has returned |
| BlkProtocol.BusyMeaning | kernel/virtio.c:109-111 | the same about `virtq_is_busy` on the block queue |
| Receiving.CapturedIs | kernel/virtio_net.c:119-128 | behind ten bytes of device header, a frame is captured whole and with its big-endian type; what is shorter than both headers is not |
| Receiving.EthernetComesBack | kernel/virtio_net.c:119-128 | a frame that `virtio_net_send_ethernet` builds is captured with the type it was sent with |
| Receiving.PathStepInv | kernel/virtio_net.c:111-151 | every step of device, handler, sender or caller keeps the ring's history equal to the frames passed on |
| Receiving.FramesReachCallers | kernel/virtio_net.c:94-151 | end to end, in every interleaving from boot: the frames behind the ten-byte device headers are offered in order with their types, and callers get those that found a place, each cut to the capacity its caller passed |
| Checksum.AddWords | kernel/ipv4.c:72-82 | the accumulation loop with its 32-bit sum and an odd last byte |
| Checksum.FoldCarries | kernel/ipv4.c:84-85 | the fold loop |
| Checksum.ComputeChecksum | kernel/ipv4.c:72-88 | both loops; without 32-bit wrap the result is the complement of the word sum modulo 65535 |
| Checksum.FoldIsResidue | kernel/ipv4.c:84-85 | the fold loop ends and gives the sum modulo 65535, with 65535 for non-zero multiples |
| Checksum.VerifiesIff | kernel/ipv4.c:130-133 | a header verifies if and only if its word sum is a positive multiple of 65535 |
| Checksum.OneWordChange | kernel/ipv4.c:130-133 | a verifying header with one word changed still verifies if and only if the change is between 0x0000 and 0xffff and leaves a positive sum |
| Ipv4.ChecksumFills | kernel/ipv4.c:200-201 | filling in the computed checksum makes a header verify |
| Ipv4.SendReceiveAgree | kernel/ipv4.c:104-212 | every packet `ipv4_send` builds for the local or broadcast address, framed and padded, passes every check of `ipv4_receive` |
| Ipv4.SentFrameCounts | kernel/ipv4.c:148-162 | such a packet raises the packet counter and exactly its protocol's counter |
| Ipv4.EthernetFrame | kernel/virtio_net.c:194-205 | addresses, type, payload, zero padding and exact length of the frame |
| Ipv4.SendEthernet | kernel/virtio_net.c:186-205 | refused exactly before the driver is ready, without address or payload, or for a length below 0 or over 1500; otherwise a frame of 60 to 1514 bytes |
| Ipv4Checks.PacketFields | kernel/ipv4.c:185-201 | every field of a packet that `ipv4_send` builds, and its payload |
| Ipv4Checks.AcceptedIff | kernel/ipv4.c:104-146 | a frame is accepted if and only if its lengths fit, its header sums to a positive multiple of 65535, it is no fragment and it is for 10.0.2.15 or everybody |
| Ipv4Checks.ReceiveCounts | kernel/ipv4.c:104-163 | a drop moves the drop counter alone; an accepted frame the packet counter and that of its protocol |
| Ipv4Checks.ElsewhereDropped | kernel/ipv4.c:142-146 | a packet for any other address is dropped |
| Ipv4Checks.ChangedDropped | kernel/ipv4.c:130-133 | a packet with one header word changed on the way is dropped, unless the change is between 0x0000 and 0xffff or lengthens the header |
| Ipv4Checks.LongerHeaderIff | kernel/ipv4.c:115-133 | exactly when a packet whose header was lengthened on the way is accepted |
| Ipv4Checks.LongerHeaderAccepted | kernel/ipv4.c:115-133 | one that is |
| Ipv4.Stack.Receive | kernel/ipv4.c:104-163 | the checks in order and the counters they move |
| Ipv4.Stack.Build | kernel/ipv4.c:185-201 | the packet buffer filled field by field |
| Arp.LookupAfterUpdate | kernel/arp.c:86-103 | the exact effect of learning an address on every lookup |
| Arp.UpdateOk | kernel/arp.c:86-103 | valid slots stay a prefix with distinct addresses |
| Arp.CacheAgreesWithHistory | kernel/arp.c:86-103 | over any history a cached address has the hardware address learnt last for it |
| Arp.LookupAfterHistory | kernel/arp.c:86-103 | what the cache answers after any history, exactly: the last hardware address learnt, for the second to the eighth distinct address and for the last address outside these; nothing for any other |
| Arp.SlotsStayForever | kernel/arp.c:98-102 | slots 1 to 7 keep their addresses over any further history |
| Arp.AnyPacketTeaches | kernel/arp.c:128-151 | a packet from anybody, in any frame, teaches its sender's addresses, and a reply is owed to that sender exactly for a request for 10.0.2.15 |
| Arp.IgnoredIff | kernel/arp.c:128-138 | which frames are ignored, exactly |
| Arp.BuiltPacketTeaches | kernel/arp.c:105-151 | a packet built by `arp_build_packet` teaches its receiver exactly the sender's addresses |
| Arp.Resolver.CacheUpdate | kernel/arp.c:86-103 | the search loop and the update |
| Arp.Resolver.LookupMac | kernel/arp.c:190-199 | `arp_lookup` |
| Arp.Resolver.Poll | kernel/arp.c:153-176 | a reply that is owed goes to the host that asked and is owed no longer |
| Arp.Resolver.Request | kernel/arp.c:178-188 | the broadcast frame that asks for an address |
| Arp.Resolver.SendIpv4 | kernel/ipv4.c:165-212 | the refusals, the ARP request on a miss, the frame handed to the driver on a hit, identification and counters |
| Arp.Resolver.ReceiveFrame | kernel/arp.c:128-151 | `arp_receive`: what is ignored, learnt and owed |
| CaptureRing.PushRefines | kernel/virtio_net.c:94-109 | a captured frame is appended, or dropped when 16 wait |
| CaptureRing.PopRefines | kernel/virtio_net.c:287-309 | a pop takes the oldest frame |
| CaptureRing.RunRefines | kernel/virtio_net.c:94-109 | over any run the ring is a 16-place queue that drops when full, and its counters account for every frame |
| CaptureRing.GivenInOrder | kernel/virtio_net.c:287-309 | callers get the accepted frames in order, each cut to the capacity asked for, and the rest of them wait |
| CaptureRing.Buffer.CaptureFrame | kernel/virtio_net.c:94-109 | the in-place push |
| CaptureRing.Buffer.PopFrame | kernel/virtio_net.c:287-309 | the pop, cut to the caller's capacity |
| TarFormat.OctalRoundTrip | kernel/filesystem.c:8-17 | `oct2int` inverts the printed octal digits |
| TarFormat.ChecksumIsUstar | kernel/filesystem.c:69-76 | the stored checksum is the header's byte sum with the field read as spaces |
| TarFormat.HeaderFields | kernel/filesystem.c:53-67 | every field of a printed header, byte by byte, and zeros elsewhere |
| TarFormat.HeadExactly | kernel/filesystem.c:24-33 | what `fs_init` makes of a header, exactly: end, bad magic, a file, or out of bounds |
| TarRoundTrip.TarRestores | kernel/filesystem.c:19-88 | reading a flushed archive back gives every name, size and contents of the files in use, in order |
| TarRoundTrip.TwoFullFilesDoNotFit | include/filesystem.h:5 | two files fit the buffer if and only if their contents take at most three sectors; two full files do not |
| Filesystem.OctToInt | kernel/filesystem.c:8-17 | the value of the leading octal digits, or nothing when an `int` overflows |
| Filesystem.Fs.PutOctal | kernel/filesystem.c:63-66 | the digit loop prints the octal digits in place |
| Filesystem.Fs.WriteHeader | kernel/filesystem.c:53-76 | the header bytes in place, checksum included |
| Filesystem.Fs.Flush | kernel/filesystem.c:44-88 | the buffer becomes the archive of the files in use |
| Filesystem.Fs.Init | kernel/filesystem.c:19-42 | the parse loop, with its errors: a bad magic, and headers, sizes or names that lead out of bounds |
| Filesystem.FlushThenInit | kernel/filesystem.c:19-88 | flush, then a fresh boot: the files in use come back and nothing else does |

## Left out

- Assembly: trap entry, context switch, user entry, boot; a context switch is a change of the running process.
- Device probing, MMIO registers and the PLIC; the interrupt status register is two bits with an acknowledgement.
- The console, the shell, `printf`, dump functions and user-side syscall wrappers.
- User pointers and lengths in system calls; a call gets well-formed arguments.
- Kernel stacks and saved stack pointers of processes.
- `virtio_net_poll`, which nothing calls, and the dispatch inside the receive drain to ARP and IPv4; each of these is modelled on its own.
- `virtio_net_init` and `virtio_blk_init` beyond what they allocate and enqueue.
- Liveness: that a device ever completes a request or that a pending interrupt is ever taken; `NetProgress.dfy` and `BlkProgress.dfy` show what follows when they do.
- Heap.AllocFacts: requires at least one page and a byte size that fits 32 bits, as every caller guarantees; Heap.AllocStopsIff covers the wrapped sizes too.
- TarRoundTrip.TarRestores: files that do not fit the disk buffer are outside it, because `fs_flush` then writes past the buffer.
- `read_write_disk` inside `fs_init` and `fs_flush`: the sectors are one image here; that each sector transfer is atomic is BlkProtocol.CallAtomic.
