/** The limits of the kernel as it is linked: 64 MB of free RAM (linker/kernel.ld) above an image that
    ends below 0x80400000. Which images load, and two runs from boot that end badly. */
module Limits {
  import opened Machine
  import opened Regions
  import opened Coalescing
  import opened Heap
  import opened Room
  import opened PageTables
  import opened KernelState
  import opened Ownership
  import opened Mapping
  import opened Creation
  import opened Invariant
  import opened Capacity
  import opened CreateSafe
  import opened SharedMemory
  import opened Detaching
  import opened Runs
  import opened Leaks

  /** 64 MB of RAM that starts above the kernel base and not above 0x80400000. */
  predicate Linked(ram: Ram) {
    ram.Ok() && KERNEL_BASE < ram.lo <= 0x8040_0000 && ram.hi == ram.lo + 0x400_0000
  }

  lemma NeededHere(ram: Ram, image: seq<Byte>)
    requires Linked(ram)
    ensures Needed(ram.hi, image) == if image == [] then 20 else 21 + PageCount(image)
  {
  }

  /** With room in the allocator, an image loads if and only if it has at most 43 pages; a larger one
      makes the kernel store past the end of the process's record. */
  lemma LargestImage(k: Kernel, image: seq<Byte>)
    requires Inv(k) && Linked(k.ram) && FindProcSlot(k.procs, 0) >= 0 && HasRoom(k, PROC_REGION_MAX + 1)
    ensures CreateProcess(k, image).Done? <==> PageCount(image) <= 43
    ensures CreateProcess(k, image) == Stopped(RegionTableFull) <==> PageCount(image) > 43
  {
    hide Inv, CreateProcess, HasRoom;
    CreateFitsIff(k, image);
    NeededHere(k.ram, image);
  }

  // ---- a kernel that has only allocated so far ----

  /** No process but idle in slot 0, no object, and `n` regions handed out below `free` bytes. */
  ghost predicate JustBooted(k: Kernel, free: int, n: int) {
    && Inv(k) && Running(k) && Linked(k.ram)
    && FrontTable(k.heap.rs, k.ram, free, n)
    && k.idle == 0 && k.current == 0
    && (forall p :: 0 < p < PROCS_MAX && p < |k.procs| ==> k.procs[p].state.ProcUnused?)
    && k.objs == seq(SHM_MAX, _ => NO_OBJECT) && k.nextShmId == 1
  }

  lemma SumOfSizes()
    ensures Sum(DRIVER_SIZES) == 14
  {
    assert DRIVER_SIZES[1..] == [1, 2, 2, 6, 1] && [1, 2, 2, 6, 1][1..] == [2, 2, 6, 1];
    assert [2, 2, 6, 1][1..] == [2, 6, 1] && [2, 6, 1][1..] == [6, 1] && [6, 1][1..] == [1] && [1][1..] == [];
    assert Sum([1]) == 1 && Sum([6, 1]) == 7 && Sum([2, 6, 1]) == 9;
  }

  /** The kernel as linked boots. */
  lemma BootsHere(ram: Ram, mem: Memory)
    requires Linked(ram) && Bootable(ram, mem)
    ensures Boot(ram, mem, DRIVER_SIZES).Done?
    ensures JustBooted(Boot(ram, mem, DRIVER_SIZES).value, 0x400_0000 - 34 * PAGE_SIZE, 26)
  {
    hide Inv, AllocDevices, CreateProcess, TakePages, FrontTable, TablesAt, Running;
    SumOfSizes();
    NeededHere(ram, []);
    BootInv(ram, mem, DRIVER_SIZES);
    var k := Blank(ram, mem);
    InitFront(ram);
    DevicesFront(k, DRIVER_SIZES, ram.hi - ram.lo, 0);
    var k1 := AllocDevices(k, DRIVER_SIZES).value;
    BlankInv(ram, mem);
    DevicesInv(k, DRIVER_SIZES);
    DevicesOnly(k, DRIVER_SIZES);
    CreateOutcome(k1, []);
    FrontTakes(k1.heap.rs, ram, 0x400_0000 - 14 * PAGE_SIZE, 6, 20);
    assert k1.procs[0].state.ProcUnused? && FindProcSlot(k1.procs, 0) == 0;
  }

  lemma {:induction false} DevicesOnly(k: Kernel, sizes: seq<nat>)
    requires AllocDevices(k, sizes).Done?
    ensures var k1 := AllocDevices(k, sizes).value;
            k1 == k.(heap := k1.heap, devices := k1.devices)
    decreases |sizes|
  {
    if sizes != [] {
      DevicesOnly(AllocDevice(k, sizes[0]).value, sizes[1..]);
    }
  }

  // ---- runs, step by step ----

  lemma {:induction false} RunAppend(k: Kernel, xs: seq<Op>, ys: seq<Op>)
    ensures Run(k, xs + ys) == if Run(k, xs).Done? then Run(Run(k, xs).value, ys) else Run(k, xs)
    decreases |xs|
  {
    hide Step;
    if xs == [] {
      assert xs + ys == ys;
    } else {
      assert (xs + ys)[0] == xs[0] && (xs + ys)[1..] == xs[1..] + ys;
      if Step(k, xs[0]).Done? {
        RunAppend(Step(k, xs[0]).value, xs[1..], ys);
      }
    }
  }

  lemma RunSnoc(k: Kernel, xs: seq<Op>, op: Op)
    requires Run(k, xs).Done?
    ensures Run(k, xs + [op]) == Step(Run(k, xs).value, op)
  {
    hide Step;
    RunAppend(k, xs, [op]);
    var k1 := Run(k, xs).value;
    assert [op][1..] == [];
    assert Run(k1, [op]) == Step(k1, op) by {
      if Step(k1, op).Done? {
        assert Run(Step(k1, op).value, []) == Done(Step(k1, op).value);
      }
    }
  }

  /** The process in slot 1 is the only one besides idle, and it runs; nothing has been released. */
  ghost predicate UserAlone(k: Kernel, free: int, n: int) {
    && Inv(k) && Running(k) && Linked(k.ram) && |k.procs| == PROCS_MAX && |k.objs| == SHM_MAX
    && FrontTable(k.heap.rs, k.ram, free, n)
    && k.idle == 0 && k.current == 1
    && (forall p :: 1 < p < PROCS_MAX ==> k.procs[p].state.ProcUnused?)
  }

  /** What the first user process leaves behind when it has been created, in slot 1. */
  ghost predicate JustCreated(k: Kernel, k1: Kernel, image: seq<Byte>, free: int, n: int) {
    && Inv(k1) && Running(k1) && k1.ram == k.ram && |k1.procs| == PROCS_MAX && |k1.objs| == SHM_MAX
    && FrontTable(k1.heap.rs, k1.ram, free, n)
    && k1.idle == 0 && k1.current == 0 && CanRun(k1.procs[1])
    && (forall p :: 1 < p < PROCS_MAX ==> k1.procs[p].state.ProcUnused?)
    && k1.objs == k.objs && k1.nextShmId == k.nextShmId
    && k1.procs[1].currentIdx == 21 + PageCount(image) && k1.procs[1].shm == NoMappings()
    && !HasTable(k1.heap.mem, k1.procs[1].Root(), SHM_V1)
  }

  lemma FirstCreated(k: Kernel, image: seq<Byte>, free: int, n: int)
    requires JustBooted(k, free, n) && image != [] && PageCount(image) <= 43
    requires (22 + PageCount(image)) * PAGE_SIZE <= free && n + 22 + PageCount(image) < MAX_REGIONS
    ensures Step(k, Create(image)).Done?
    ensures var c := 21 + PageCount(image);
            JustCreated(k, Step(k, Create(image)).value, image, free - c * PAGE_SIZE, n + c)
  {
    hide Inv, CreateProcess, TakePages, FrontTable, Layout, KeepsOthers, NoMappings, HasTable, Needed, CanCreate;
    NeededHere(k.ram, image);
    FrontTakes(k.heap.rs, k.ram, free, n, 21 + PageCount(image));
    CreateOutcome(k, image);
    CreateFacts(k, image);
    BaseSlots(k);
    assert FindProcSlot(k.procs, 0) == FindProcSlot(k.procs, 1) == 1;
    StepInv(k, Create(image));
    assert SHM_V1 !in CreatedRanges(k.ram.hi, image);
  }

  /** It gets the CPU at the next yield. */
  lemma FirstRuns(k: Kernel)
    requires Inv(k) && Running(k) && k.idle == 0 && k.current == 0 && |k.procs| == PROCS_MAX && CanRun(k.procs[1])
    ensures Step(k, YieldNow) == Done(k.(current := 1))
    ensures Inv(k.(current := 1)) && Running(k.(current := 1))
  {
    hide Base, Policy, ObjectsOk;
    YieldInv(k);
    assert ProcOk(k, 0);
    assert PickNext(k.procs, 0, 0, 0) == PickNext(k.procs, 0, 1, 0) == 1;
  }

  /** The first user process is created and gets the CPU. */
  lemma Started(k: Kernel, image: seq<Byte>, free: int, n: int)
    requires JustBooted(k, free, n) && image != [] && PageCount(image) <= 43
    requires (22 + PageCount(image)) * PAGE_SIZE <= free && n + 22 + PageCount(image) < MAX_REGIONS
    ensures Run(k, [Create(image), YieldNow]).Done?
    ensures var k2 := Run(k, [Create(image), YieldNow]).value;
            && UserAlone(k2, free - (21 + PageCount(image)) * PAGE_SIZE, n + 21 + PageCount(image))
            && k2.objs == k.objs && k2.nextShmId == 1
            && k2.procs[1].currentIdx == 21 + PageCount(image) && k2.procs[1].shm == NoMappings()
            && !HasTable(k2.heap.mem, k2.procs[1].Root(), SHM_V1)
  {
    hide Inv, Running, FrontTable, NoMappings, HasTable, Step;
    FirstCreated(k, image, free, n);
    var k1 := Step(k, Create(image)).value;
    FirstRuns(k1);
    RunCons(k, Create(image), [YieldNow]);
    RunSnoc(k1, [], YieldNow);
    assert [Create(image)] + [YieldNow] == [Create(image), YieldNow] && [] + [YieldNow] == [YieldNow];
  }

  lemma BaseSlots(k: Kernel)
    requires Inv(k)
    ensures |k.procs| == PROCS_MAX && |k.objs| == SHM_MAX
  {
  }

  /** The object `shm_get` makes in slot `s`. */
  function NewObject(k: Kernel, key: int, h: Heap, n: int): ShmObject
    requires 0 <= n < |h.rs|
  {
    ShmObject(true, k.nextShmId, key, h.rs[n].start, n, PAGE_SIZE, 0)
  }

  /** A new key gets the next region. */
  lemma GetNew(k: Kernel, key: int, s: int, free: int, n: int)
    requires UserAlone(k, free, n) && PAGE_SIZE <= free && n + 1 < MAX_REGIONS
    requires 0 < key && FindByKey(k.objs, key, 0) < 0 && FindObjectSlot(k.objs, 0) == s && 0 <= s
    ensures Step(k, Get(key)).Done?
    ensures var k1 := Step(k, Get(key)).value;
            && UserAlone(k1, free - PAGE_SIZE, n + 1) && k1.procs == k.procs
            && k1.objs == k.objs[s := NewObject(k, key, k1.heap, n + 1)] && k1.nextShmId == k.nextShmId + 1
            && (forall v :: 0 <= v < WORDS_PER_PAGE ==>
                  HasTable(k1.heap.mem, k.procs[1].Root(), v) == HasTable(k.heap.mem, k.procs[1].Root(), v))
  {
    hide Base, Policy, ObjectsOk, ProcsOk, FrontTable, AllocRegion, KeepsOthers, HasTable;
    FrontAlloc(k.heap, k.ram, free, n, 1);
    RunningCurrent(k);
    ShmGetInv(k, key);
    StepInv(k, Get(key));
    TablesKept(k, Step(k, Get(key)).value, NOBODY, 1);
  }

  /** A call that leaves `q` alone leaves its first-level table alone. */
  lemma TablesKept(k: Kernel, k1: Kernel, p: int, q: int)
    requires Inv(k) && Rooted(k, q) && KeepsOthers(k, k1, p) && q != p
    ensures forall v :: 0 <= v < WORDS_PER_PAGE ==>
              HasTable(k1.heap.mem, k.procs[q].Root(), v) == HasTable(k.heap.mem, k.procs[q].Root(), v)
  {
    hide Policy, ObjectsOk, ProcsOk, KeepsOthers;
    OthersKept(k, k1, p, q);
    assert SpaceOk(k, q);
    assert k.procs[q].Root() in Own(k, q);
  }

  /** A process created from 43 pages has filled its record: its first `shm_attach` makes the kernel
      store past the end. This run from boot does so, whatever the RAM held. */
  lemma FirstAttachOverflows(ram: Ram, mem: Memory, image: seq<Byte>)
    requires Linked(ram) && Bootable(ram, mem) && PageCount(image) == 43
    ensures Boot(ram, mem, DRIVER_SIZES).Done?
    ensures var k := Boot(ram, mem, DRIVER_SIZES).value;
            && Run(k, [Create(image), YieldNow, Get(1)]).Done?
            && Run(k, [Create(image), YieldNow, Get(1), Attach(1)]) == Stopped(RegionTableFull)
  {
    hide Boot, Inv, Running, FrontTable, HasTable, Step, NoMappings;
    var free, ops := 0x400_0000 - 34 * PAGE_SIZE, [Create(image), YieldNow];
    BootsHere(ram, mem);
    var k := Boot(ram, mem, DRIVER_SIZES).value;
    Started(k, image, free, 26);
    var k2 := Run(k, ops).value;
    BaseSlots(k);
    assert FindByKey(k2.objs, 1, 0) < 0;
    assert !k2.objs[0].used;
    GetNew(k2, 1, 0, free - 64 * PAGE_SIZE, 90);
    RunSnoc(k, ops, Get(1));
    assert ops + [Get(1)] == [Create(image), YieldNow, Get(1)];
    var k3 := Step(k2, Get(1)).value;
    AttachOverflows(k3, 1, free - 65 * PAGE_SIZE, 91);
    RunSnoc(k, ops + [Get(1)], Attach(1));
    assert ops + [Get(1)] + [Attach(1)] == [Create(image), YieldNow, Get(1), Attach(1)];
  }

  lemma AttachOverflows(k: Kernel, id: int, free: int, n: int)
    requires UserAlone(k, free, n) && PAGE_SIZE <= free && n + 1 < MAX_REGIONS
    requires k.objs[0].used && k.objs[0].id == id && k.procs[1].shm == NoMappings()
    requires k.procs[1].currentIdx == PROC_REGION_MAX && !HasTable(k.heap.mem, k.procs[1].Root(), SHM_V1)
    ensures Step(k, Attach(id)) == Stopped(RegionTableFull)
  {
    hide Inv, FrontTable, HasTable, TakePage, ShmAttach;
    FrontTake(k.heap.rs, k.ram, free, n);
    AttachOutcome(k, 1, id);
    assert !k.procs[1].shm[0].used;
    assert Attaches(k, 1, id);
  }

  // ---- region 0 ends up in a process's record and is lost ----

  /** Releasing the last region handed out makes it absorb slot 0, the free rest behind it. */
  lemma FrontRelease(rs: Table, ram: Ram, free: int, n: int)
    requires Tiled(rs, ram) && FrontTable(rs, ram, free, n) && 0 < free && 0 < n
    ensures Release(rs, n) == Absorb(MarkFree(rs, n), n, 0)
    ensures Release(rs, n)[0] == EMPTY && Release(rs, n)[n] == Region(rs[n].start, rs[n].size + free, Free)
  {
    hide TotalSize, Covered, MergeFrom;
    var rs1 := MarkFree(rs, n);
    MarkFreeTiled(rs, ram, n);
    assert WellPlaced(rs[n], ram);
    forall a, b | 0 <= a < |rs1| && 0 <= b < |rs1| && Mergeable(rs1, a, b) ensures a == n && b == 0 {
      assert (a == 0 || a == n) && (b == 0 || b == n);
    }
    OnePairPass(rs1, ram, n, 0, 0);
  }

  /** Allocate, release, allocate: the second allocation after boot is handed index 0. */
  lemma SlotZeroHandedOut(ram: Ram, mem: Memory)
    requires ram.Ok() && ram.hi - ram.lo > PAGE_SIZE
    ensures var a1 := AllocRegion(Heap(InitTable(ram), mem), 1);
            && a1.Done?
            && var r := ReleasePages(a1.value.0, a1.value.1);
            && r.Done?
            && var a2 := AllocRegion(r.value, 1);
            && a2.Done? && a2.value.1 == 0
  {
    hide Tiled, FrontTable, Release;
    var h := Heap(InitTable(ram), mem);
    InitFront(ram);
    InitTiled(ram);
    FrontAlloc(h, ram, ram.hi - ram.lo, 0, 1);
    var h1 := AllocRegion(h, 1).value.0;
    CarveTiled(h.rs, ram, FindFit(h.rs, PAGE_SIZE, 0), FindUnused(h.rs, 0), PAGE_SIZE);
    FrontRelease(h1.rs, ram, ram.hi - ram.lo - PAGE_SIZE, 1);
    FrontAllocated(h1.rs, ram, ram.hi - ram.lo - PAGE_SIZE, 1);
    var rs := Release(h1.rs, 1);
    assert rs[0].state.Unused? && FindUnused(rs, 0) == 0;
    assert Fits(rs[1], PAGE_SIZE);
  }

  lemma FrontAllocated(rs: Table, ram: Ram, free: int, n: int)
    requires FrontTable(rs, ram, free, n) && 0 < n
    ensures |rs| == MAX_REGIONS && rs[n].state.Allocated?
  {
  }

  lemma {:induction false} LivePrefix(rs: Table, m: nat)
    requires forall i :: m <= i < |rs| ==> rs[i] == EMPTY
    ensures LiveCount(rs) <= m
  {
    if m < |rs| {
      LivePrefix(rs[..|rs| - 1], m);
    } else {
      AllLive(rs);
    }
  }

  /** What that leaves: `n` is the only FREE region, and no slot above it is in use. */
  ghost predicate TailFree(rs: Table, n: int, size: int) {
    && |rs| == MAX_REGIONS && 0 < n < MAX_REGIONS
    && rs[0] == EMPTY && rs[n].state.Free? && rs[n].size == size
    && (forall i :: 0 <= i < n ==> !rs[i].state.Free?)
    && (forall i :: n < i < MAX_REGIONS ==> rs[i] == EMPTY)
  }

  lemma FrontReleased(rs: Table, ram: Ram, free: int, n: int)
    requires Tiled(rs, ram) && FrontTable(rs, ram, free, n) && 0 < free && 0 < n
    ensures TailFree(Release(rs, n), n, rs[n].size + free) && 0 < rs[n].size
  {
    hide Tiled, Release;
    FrontRelease(rs, ram, free, n);
    assert 0 < rs[n].size by {
      PlacedSize(rs, ram, n);
    }
  }

  lemma PlacedSize(rs: Table, ram: Ram, n: int)
    requires Tiled(rs, ram) && 0 <= n < |rs| && rs[n].state.Allocated?
    ensures 0 < rs[n].size
  {
    assert WellPlaced(rs[n], ram);
  }

  lemma TailRoom(rs: Table, n: int, size: int)
    requires TailFree(rs, n, size) && 0 <= size
    ensures size <= FreeBytes(rs) && LiveCount(rs) <= n + 1
  {
    hide FreeBytes, LiveCount;
    LivePrefix(rs, n + 1);
    FreeAtLeast(rs, n);
  }

  lemma AttachNew(k: Kernel, id: int, oi: int, slot: int, free: int, n: int, c: int)
    requires UserAlone(k, free, n) && FindById(k.objs, id, 0) == oi && 0 <= oi
    requires FindMappingSlot(k.procs[1].shm, 0) == slot && 0 <= slot
    requires c == (if HasTable(k.heap.mem, k.procs[1].Root(), SHM_V1) then 0 else 1)
    requires 0 < c ==> k.procs[1].currentIdx < PROC_REGION_MAX
    requires c * PAGE_SIZE <= free && n + c < MAX_REGIONS
    ensures Step(k, Attach(id)).Done?
    ensures var k1 := Step(k, Attach(id)).value;
            && UserAlone(k1, free - c * PAGE_SIZE, n + c) && k1.nextShmId == k.nextShmId
            && k1.objs == k.objs[oi := k.objs[oi].(refcount := k.objs[oi].refcount + 1)]
            && k1.procs[1].shm == k.procs[1].shm[slot := ShmMapping(true, k.objs[oi].id, SlotVaddr(slot))]
            && k1.procs[1].Root() == k.procs[1].Root() && HasTable(k1.heap.mem, k1.procs[1].Root(), SHM_V1)
  {
    hide Inv, FrontTable, HasTable, TakePage, MapPage;
    FrontTake(k.heap.rs, k.ram, free, n);
    RunningCurrent(k);
    AttachOutcome(k, 1, id);
    StepInv(k, Attach(id));
  }

  /** Detaching the only mapping of the object that has the last region handed out. */
  lemma DetachLatest(k: Kernel, oi: int, slot: int, free: int, n: int)
    requires UserAlone(k, free, n) && 0 <= slot < |k.procs[1].shm| && 0 <= oi < SHM_MAX
    requires k.procs[1].shm[slot].used && FindMapping(k.procs[1].shm, SlotVaddr(slot), 0) == slot
    requires FindById(k.objs, k.procs[1].shm[slot].shmId, 0) == oi && k.objs[oi].refcount == 1 && k.objs[oi].region == n
    ensures Step(k, Detach(SlotVaddr(slot))).Done?
    ensures var k1 := Step(k, Detach(SlotVaddr(slot))).value;
            && Inv(k1) && Running(k1) && k1.current == 1 && k1.idle == 0 && k1.ram == k.ram && |k1.procs| == PROCS_MAX
            && 0 <= n < |k.heap.rs| && k1.heap.rs == Release(k.heap.rs, n)
            && (forall p :: 0 <= p < PROCS_MAX ==> k1.procs[p].state == k.procs[p].state)
  {
    hide Inv, FrontTable, Release, DetachEffect, Shrinks, UnmapPage;
    RunningCurrent(k);
    var r := DetachSlotInv(k, 1, slot);
    StepInv(k, Detach(SlotVaddr(slot)));
    UnmapKeepsTable(k, 1, k.procs[1].shm[slot].vaddr);
  }

  lemma UnmapKeepsTable(k: Kernel, p: int, vaddr: int)
    requires IsProc(k, p)
    ensures UnmapPage(k, p, vaddr).Done? ==> UnmapPage(k, p, vaddr).value.heap.rs == k.heap.rs
  {
  }

  /** The first index a new process records is the first unused slot. */
  lemma CreateFirst(k: Kernel, image: seq<Byte>)
    requires Inv(k) && CreateProcess(k, image).Done?
    ensures var (k1, p) := CreateProcess(k, image).value;
            FindUnused(k.heap.rs, 0) in k1.procs[p].Held()
  {
    hide Base, Policy, ObjectsOk, MapRange, MapDevices, LoadImage, Walk, DeviceVpn, PageLoaded, NoMappings,
         KeepsOthers, NewRoot;
    var p := FindProcSlot(k.procs, 0);
    assert ProcOk(k, p);
    NewRootFacts(k, p);
    RootFirst(k, p);
    var k1 := NewRoot(k, p).value;
    RamAligned(k);
    MapRangeFacts(k1, p, KERNEL_BASE, k.ram.hi);
    var k2 := MapRange(k1, p, KERNEL_BASE, k.ram.hi).value;
    ExtendsGives(k1, k2, p);
    MapDevicesFacts(k2, p, 0);
    var k3 := MapDevices(k2, p, 0).value;
    ExtendsGives(k2, k3, p);
    LoadImageFacts(k3, p, image, 0);
    var k4 := LoadImage(k3, p, image, 0).value;
    ExtendsTrans(k1, k2, k3, p);
    ExtendsTrans(k1, k3, k4, p);
    assert k1.procs[p].Held() <= k4.procs[p].Held();
  }

  lemma RootFirst(k: Kernel, p: int)
    requires IsProc(k, p) && NewRoot(k, p).Done?
    ensures FindUnused(k.heap.rs, 0) in NewRoot(k, p).value.procs[p].Held()
  {
    hide Carve, FindFit, FindUnused;
    var x := FindUnused(k.heap.rs, 0);
    var held := NewRoot(k, p).value.procs[p].Held();
    assert |held| == 1 && held[0] == x;
  }

  /** The mapping in slot 1 names object 1, which nobody else has mapped and whose region is `n`. */
  ghost predicate LatestMapped(k: Kernel, n: int) {
    && IsProc(k, 1) && 1 < |k.procs[1].shm| && 1 < |k.objs|
    && k.procs[1].shm[1].used && FindMapping(k.procs[1].shm, SlotVaddr(1), 0) == 1
    && FindById(k.objs, k.procs[1].shm[1].shmId, 0) == 1 && k.objs[1].refcount == 1 && k.objs[1].region == n
  }

  const SHARING := [Get(1), Attach(1), Get(2), Attach(2)]

  /** Two objects are made and attached; the second one gets the last region handed out. */
  lemma SharedTwice(k: Kernel, free: int, n: int)
    requires UserAlone(k, free, n) && 3 * PAGE_SIZE <= free && n + 3 < MAX_REGIONS
    requires k.objs == seq(SHM_MAX, _ => NO_OBJECT) && k.nextShmId == 1 && k.procs[1].shm == NoMappings()
    requires k.procs[1].currentIdx < PROC_REGION_MAX && !HasTable(k.heap.mem, k.procs[1].Root(), SHM_V1)
    ensures Run(k, SHARING).Done?
    ensures UserAlone(Run(k, SHARING).value, free - 3 * PAGE_SIZE, n + 3) && LatestMapped(Run(k, SHARING).value, n + 3)
  {
    hide Inv, Running, FrontTable, HasTable, Step;
    assert FindByKey(k.objs, 1, 0) < 0;
    GetNew(k, 1, 0, free, n);
    var k1 := Step(k, Get(1)).value;
    AttachNew(k1, 1, 0, 0, free - PAGE_SIZE, n + 1, 1);
    var k2 := Step(k1, Attach(1)).value;
    assert FindByKey(k2.objs, 2, 0) < 0;
    assert FindObjectSlot(k2.objs, 0) == FindObjectSlot(k2.objs, 1) == 1;
    GetNew(k2, 2, 1, free - 2 * PAGE_SIZE, n + 2);
    var k3 := Step(k2, Get(2)).value;
    assert FindById(k3.objs, 2, 0) == FindById(k3.objs, 2, 1) == 1;
    assert FindMappingSlot(k3.procs[1].shm, 0) == FindMappingSlot(k3.procs[1].shm, 1) == 1;
    AttachNew(k3, 2, 1, 1, free - 3 * PAGE_SIZE, n + 3, 0);
    var k4 := Step(k3, Attach(2)).value;
    FourSteps(k, Get(1), Attach(1), Get(2), Attach(2));
    SharedShape(k4, n + 3);
  }

  lemma SharedShape(k: Kernel, n: int)
    requires IsProc(k, 1) && |k.procs[1].shm| == PROC_SHM_MAX && |k.objs| == SHM_MAX
    requires k.procs[1].shm[0].vaddr == SlotVaddr(0) && k.procs[1].shm[1] == ShmMapping(true, 2, SlotVaddr(1))
    requires k.objs[0].id == 1 && k.objs[1].used && k.objs[1].id == 2 && k.objs[1].refcount == 1
    requires k.objs[1].region == n
    ensures LatestMapped(k, n)
  {
    assert FindMapping(k.procs[1].shm, SlotVaddr(1), 0) == FindMapping(k.procs[1].shm, SlotVaddr(1), 1) == 1;
    assert FindById(k.objs, 2, 0) == FindById(k.objs, 2, 1) == 1;
  }

  lemma RunCons(k: Kernel, op: Op, rest: seq<Op>)
    ensures Run(k, [op] + rest) == if Step(k, op).Done? then Run(Step(k, op).value, rest) else Step(k, op)
  {
    hide Step;
    assert ([op] + rest)[1..] == rest;
  }

  lemma FourSteps(k: Kernel, a: Op, b: Op, c: Op, d: Op)
    requires Step(k, a).Done?
    requires var k1 := Step(k, a).value; Step(k1, b).Done? && Step(Step(k1, b).value, c).Done?
    ensures var k1 := Step(k, a).value;
            Run(k, [a, b, c, d]) == Step(Step(Step(k1, b).value, c).value, d)
  {
    hide Step;
    var k1 := Step(k, a).value;
    var k2 := Step(k1, b).value;
    var k3 := Step(k2, c).value;
    assert [a, b, c, d] == [a] + [b, c, d] && [b, c, d] == [b] + [c, d] && [c, d] == [c] + [d] && [d] == [] + [d];
    RunCons(k, a, [b, c, d]);
    RunCons(k1, b, [c, d]);
    RunCons(k2, c, [d]);
    RunSnoc(k3, [], d);
  }

  const LOSING: seq<Op> := [Detach(SlotVaddr(1)), Create([0]), YieldNow, Exit]

  /** Detaching that object makes slot 0 unused, so the next process records index 0 for its page
      table; when it exits the region is lost. */
  lemma ZeroRecordedAndLost(k: Kernel, free: int, n: int)
    requires UserAlone(k, free, n) && LatestMapped(k, n) && 0 < n
    requires 22 * PAGE_SIZE <= free && n + 23 <= MAX_REGIONS
    ensures Run(k, LOSING).Done?
    ensures Inv(Run(k, LOSING).value) && Running(Run(k, LOSING).value) && Leaked(Run(k, LOSING).value, 0)
  {
    hide Inv, FrontTable, Step, FreeBytes, LiveCount, Release, CreateProcess, ExitCurrent, Leaked, Layout,
         KeepsOthers, CanCreate;
    var image: seq<Byte> := [0];
    DetachLatest(k, 1, 1, free, n);
    var k1 := Step(k, Detach(SlotVaddr(1))).value;
    InvTiled(k);
    FrontReleased(k.heap.rs, k.ram, free, n);
    TailRoom(k1.heap.rs, n, k.heap.rs[n].size + free);
    ThirdProcess(k, k1, image);
    var k2 := Step(k1, Create(image)).value;
    NextIsThird(k2);
    var k3 := Step(k2, YieldNow).value;
    ExitLeaksIff(k3, 0);
    assert Step(k3, Exit) == ExitCurrent(k3) by {
      ExitStep(k3);
    }
    StepInv(k3, Exit);
    FourSteps(k, Detach(SlotVaddr(1)), Create(image), YieldNow, Exit);
  }

  lemma InvTiled(k: Kernel)
    requires Inv(k)
    ensures Tiled(k.heap.rs, k.ram)
  {
  }

  lemma ExitStep(k: Kernel)
    requires Running(k) && k.current != k.idle
    ensures Step(k, Exit) == ExitCurrent(k)
  {
  }

  lemma ThirdProcess(k: Kernel, k1: Kernel, image: seq<Byte>)
    requires Inv(k1) && Running(k1) && k1.current == 1 && k1.idle == 0 && Linked(k1.ram) && |k1.procs| == PROCS_MAX
    requires |k.procs| == PROCS_MAX && (forall p :: 0 <= p < PROCS_MAX ==> k1.procs[p].state == k.procs[p].state)
    requires k.procs[2].state.ProcUnused? && PageCount(image) == 1 && HasRoom(k1, 22)
    requires |k1.heap.rs| == MAX_REGIONS && k1.heap.rs[0] == EMPTY
    ensures Step(k1, Create(image)).Done?
    ensures var k2 := Step(k1, Create(image)).value;
            && Inv(k2) && Running(k2) && k2.current == 1 && k2.idle == 0 && |k2.procs| == PROCS_MAX
            && CanRun(k2.procs[2]) && 0 in k2.procs[2].Held()
  {
    hide Inv, CreateProcess, Layout, KeepsOthers, CanCreate, HasRoom;
    NeededHere(k1.ram, image);
    SlotsInUse(k1);
    assert FindProcSlot(k1.procs, 0) == FindProcSlot(k1.procs, 1) == FindProcSlot(k1.procs, 2) == 2;
    CreateFitsIff(k1, image);
    CreateOutcome(k1, image);
    CreateFacts(k1, image);
    CreateFirst(k1, image);
    assert FindUnused(k1.heap.rs, 0) == 0;
    StepInv(k1, Create(image));
  }

  lemma SlotsInUse(k: Kernel)
    requires Running(k)
    ensures !k.procs[k.current].state.ProcUnused? && !k.procs[k.idle].state.ProcUnused?
  {
  }

  lemma NextIsThird(k: Kernel)
    requires Inv(k) && Running(k) && k.current == 1 && k.idle == 0 && |k.procs| == PROCS_MAX && CanRun(k.procs[2])
    ensures Step(k, YieldNow) == Done(k.(current := 2))
    ensures Inv(k.(current := 2)) && Running(k.(current := 2))
  {
    hide Base, Policy, ObjectsOk;
    YieldInv(k);
    assert ProcOk(k, 1);
    assert PickNext(k.procs, 2, 0, 0) == 2;
  }

  /** A run of the kernel as linked, from boot, after which region 0 is allocated, on nobody's record,
      and stays so whatever happens next. */
  lemma RegionZeroLost(ram: Ram, mem: Memory, rest: seq<Op>)
    requires Linked(ram) && Bootable(ram, mem)
    ensures Boot(ram, mem, DRIVER_SIZES).Done?
    ensures var k := Boot(ram, mem, DRIVER_SIZES).value;
            var ops := [Create([0]), YieldNow] + SHARING + LOSING;
            && Run(k, ops).Done?
            && (Run(k, ops + rest).Done? ==> Leaked(Run(k, ops + rest).value, 0))
  {
    hide Boot, Inv, Running, FrontTable, HasTable, Step, NoMappings, Leaked, Run;
    var image: seq<Byte> := [0];
    var free, start: seq<Op> := 0x400_0000 - 34 * PAGE_SIZE, [Create(image), YieldNow];
    BootsHere(ram, mem);
    var k := Boot(ram, mem, DRIVER_SIZES).value;
    Started(k, image, free, 26);
    var k1 := Run(k, start).value;
    SharedTwice(k1, free - 22 * PAGE_SIZE, 48);
    RunAppend(k, start, SHARING);
    var k2 := Run(k1, SHARING).value;
    ZeroRecordedAndLost(k2, free - 25 * PAGE_SIZE, 51);
    RunAppend(k, start + SHARING, LOSING);
    var ops := start + SHARING + LOSING;
    RunAppend(k, ops, rest);
    if Run(k, ops + rest).Done? {
      LeakedForever(Run(k, ops).value, rest, 0);
    }
  }
}
