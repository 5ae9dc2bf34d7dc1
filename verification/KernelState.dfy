/** The kernel tables that must agree with each other: the region table, the page tables in RAM,
    the process table and the shared-memory table; and what each kernel entry point does to them
    (kernel/process.c, kernel/shm.c). */
module KernelState {
  import opened Machine
  import opened Regions
  import opened Heap
  import opened PageTables

  const PROCS_MAX := 8
  const PROC_REGION_MAX := 64
  const PROC_SHM_MAX := 4
  const SHM_MAX := 8

  const USER_BASE := 0x100_0000
  const SHM_USER_BASE := 0x170_0000
  const KERNEL_BASE := 0x8020_0000
  const VIRTIO_BLK_PADDR := 0x1000_1000
  const VIRTIO_NET_PADDR := 0x1000_2000
  const PLIC_BASE := 0xc00_0000

  const USER_VPN := USER_BASE / PAGE_SIZE
  const SHM_VPN := SHM_USER_BASE / PAGE_SIZE

  const KERNEL_PERM := Perm(true, true, true, false)
  const DEVICE_PERM := Perm(true, true, false, false)
  const IMAGE_PERM := Perm(true, true, true, true)
  const SHM_PERM := Perm(true, true, false, true)

  datatype ProcState = ProcUnused | Runnable | Exited

  datatype ShmMapping = ShmMapping(used: bool, shmId: int, vaddr: int)

  const NO_MAPPING := ShmMapping(false, 0, 0)

  /** `struct process`, less the saved stack pointer and the kernel stack. */
  datatype Process = Process(
    pid: int,
    state: ProcState,
    pageTable: int,
    regions: seq<int>,
    currentIdx: nat,
    shm: seq<ShmMapping>)
  {
    /** The region indices the process has recorded. */
    function Held(): seq<int> {
      if currentIdx <= |regions| then regions[..currentIdx] else regions
    }

    function Root(): int {
      pageTable / PAGE_SIZE
    }
  }

  function NoRegions(): seq<int> {
    seq(PROC_REGION_MAX, _ => 0)
  }

  function NoMappings(): seq<ShmMapping> {
    seq(PROC_SHM_MAX, _ => NO_MAPPING)
  }

  function BlankProcess(): Process {
    Process(0, ProcUnused, 0, NoRegions(), 0, NoMappings())
  }

  datatype ShmObject = ShmObject(used: bool, id: int, key: int, pa: int, region: int, size: int, refcount: int)

  const NO_OBJECT := ShmObject(false, 0, 0, 0, 0, 0, 0)

  datatype Kernel = Kernel(
    ram: Ram,
    heap: Heap,
    procs: seq<Process>,
    objs: seq<ShmObject>,
    nextShmId: int,
    devices: seq<int>,
    current: int,
    idle: int)

  /** After `init_regions` and `shm_init`, with cleared global tables: no process yet. */
  function Blank(ram: Ram, mem: Memory): Kernel {
    Kernel(ram, Heap(InitTable(ram), mem), seq(PROCS_MAX, _ => BlankProcess()), seq(SHM_MAX, _ => NO_OBJECT),
           1, [], -1, -1)
  }

  predicate IsProc(k: Kernel, p: int) {
    0 <= p < |k.procs|
  }

  function SetProc(k: Kernel, p: int, proc: Process): Kernel
    requires IsProc(k, p)
  {
    k.(procs := k.procs[p := proc])
  }

  /** `k1` differs from `k` at most in the heap and in process `p`. */
  predicate OnlyProc(k: Kernel, k1: Kernel, p: int)
    requires IsProc(k, p)
  {
    && |k1.procs| == |k.procs|
    && k1 == k.(heap := k1.heap, procs := k.procs[p := k1.procs[p]])
  }

  /** As `OnlyProc`, and of process `p` only the region list changes. */
  predicate OnlySpace(k: Kernel, k1: Kernel, p: int)
    requires IsProc(k, p)
  {
    && OnlyProc(k, k1, p)
    && k1.procs[p] == k.procs[p].(regions := k1.procs[p].regions, currentIdx := k1.procs[p].currentIdx)
  }

  /** `k1` differs from `k` at most in the heap, in process `p` and in the shared objects. */
  predicate OnlyProcAndObjects(k: Kernel, k1: Kernel, p: int)
    requires IsProc(k, p)
  {
    && |k1.procs| == |k.procs|
    && |k1.objs| == |k.objs|
    && |k1.procs[p].shm| == |k.procs[p].shm|
    && k1 == k.(heap := k1.heap, procs := k.procs[p := k1.procs[p]], objs := k1.objs)
  }

  // ---- map_page and unmap_page ----

  /** `proc->regions[proc->current_idx++] = idx`. */
  function Record(proc: Process, idx: int): Outcome<Process> {
    if proc.currentIdx >= |proc.regions| then Stopped(RegionTableFull)
    else Done(proc.(regions := proc.regions[proc.currentIdx := idx], currentIdx := proc.currentIdx + 1))
  }

  /** A zeroed page recorded in process `p`; also gives the page number. */
  function AllocPageFor(k: Kernel, p: int): (r: Outcome<(Kernel, int)>)
    requires IsProc(k, p)
    ensures r.Done? ==> OnlySpace(k, r.value.0, p)
  {
    var (h1, n) :- AllocRegion(k.heap, 1);
    var proc1 :- Record(k.procs[p], n);
    Done((SetProc(k, p, proc1).(heap := h1), FirstPage(h1.rs[n])))
  }

  function SetMem(k: Kernel, mem: Memory): Kernel {
    k.(heap := k.heap.(mem := mem))
  }

  /** The first half of `map_page`: a second-level table for `v1` exists afterwards. */
  function EnsureTable(k: Kernel, p: int, v1: int): (r: Outcome<Kernel>)
    requires IsProc(k, p) && 0 <= v1 < WORDS_PER_PAGE
    ensures r.Done? ==> OnlySpace(k, r.value, p)
  {
    if HasTable(k.heap.mem, k.procs[p].Root(), v1) then Done(k)
    else
      var (k1, t) :- AllocPageFor(k, p);
      Done(SetMem(k1, WithTable(k1.heap.mem, k.procs[p].Root(), v1, t)))
  }

  /** The page number of a 32-bit virtual address. */
  function Vpn(vaddr: int): (vpn: int)
    ensures 0 <= vpn < VPNS
  {
    vaddr % TWO_32 / PAGE_SIZE
  }

  function MapPage(k: Kernel, p: int, vaddr: int, paddr: int, perm: Perm): (r: Outcome<Kernel>)
    requires IsProc(k, p)
    ensures r.Done? ==> OnlySpace(k, r.value, p)
  {
    if vaddr % PAGE_SIZE != 0 || paddr % PAGE_SIZE != 0 then Stopped(Unaligned)
    else
      var vpn := Vpn(vaddr);
      var k1 :- EnsureTable(k, p, vpn / 1024);
      Done(SetMem(k1, WithLeaf(k1.heap.mem, k.procs[p].Root(), vpn, EncodePte(paddr / PAGE_SIZE, perm))))
  }

  function UnmapPage(k: Kernel, p: int, vaddr: int): (r: Outcome<Kernel>)
    requires IsProc(k, p)
    ensures r.Done? ==> r.value == SetMem(k, r.value.heap.mem)
  {
    if vaddr % PAGE_SIZE != 0 then Stopped(Unaligned)
    else
      var vpn := Vpn(vaddr);
      var root := k.procs[p].Root();
      if !HasTable(k.heap.mem, root, vpn / 1024) then Done(k)
      else Done(SetMem(k, WithLeaf(k.heap.mem, root, vpn, 0)))
  }

  // ---- create_process ----

  function FindProcSlot(procs: seq<Process>, i: nat): (r: int)
    requires i <= |procs|
    ensures r == -1 || (i <= r < |procs| && procs[r].state.ProcUnused?)
    ensures forall q :: i <= q < (if r < 0 then |procs| else r) ==> !procs[q].state.ProcUnused?
    decreases |procs| - i
  {
    if i == |procs| then -1 else if procs[i].state.ProcUnused? then i else FindProcSlot(procs, i + 1)
  }

  /** The identity maps of `[pa, hi)`. */
  function MapRange(k: Kernel, p: int, pa: int, hi: int): (r: Outcome<Kernel>)
    requires IsProc(k, p)
    ensures r.Done? ==> OnlySpace(k, r.value, p)
    decreases hi - pa
  {
    if pa >= hi then Done(k)
    else
      var k1 :- MapPage(k, p, pa, pa, KERNEL_PERM);
      MapRange(k1, p, pa + PAGE_SIZE, hi)
  }

  const DEVICE_PADDRS := [VIRTIO_BLK_PADDR, VIRTIO_NET_PADDR, PLIC_BASE, PLIC_BASE + 0x2000, PLIC_BASE + 0x201000]

  function MapDevices(k: Kernel, p: int, i: nat): (r: Outcome<Kernel>)
    requires IsProc(k, p) && i <= |DEVICE_PADDRS|
    ensures r.Done? ==> OnlySpace(k, r.value, p)
    decreases |DEVICE_PADDRS| - i
  {
    if i == |DEVICE_PADDRS| then Done(k)
    else
      var k1 :- MapPage(k, p, DEVICE_PADDRS[i], DEVICE_PADDRS[i], DEVICE_PERM);
      MapDevices(k1, p, i + 1)
  }

  /** Bytes `[off, off + PAGE_SIZE)` of the image, zero padded. */
  function ImagePage(image: seq<Byte>, off: nat): (page: Page)
    requires off < |image|
  {
    if |image| - off >= PAGE_SIZE then image[off..off + PAGE_SIZE]
    else image[off..] + ZeroPage()[|image| - off..]
  }

  function WritePage(mem: Memory, ppn: int, page: Page): Memory {
    if ppn in mem then mem[ppn := page] else mem
  }

  /** One page of the image: allocate, copy, map at `USER_BASE + off`. */
  function LoadPage(k: Kernel, p: int, image: seq<Byte>, off: nat): (r: Outcome<Kernel>)
    requires IsProc(k, p) && off < |image|
    ensures r.Done? ==> OnlySpace(k, r.value, p)
  {
    var (k1, ppn) :- AllocPageFor(k, p);
    var k2 := SetMem(k1, WritePage(k1.heap.mem, ppn, ImagePage(image, off)));
    MapPage(k2, p, USER_BASE + off, ppn * PAGE_SIZE, IMAGE_PERM)
  }

  function LoadImage(k: Kernel, p: int, image: seq<Byte>, off: nat): (r: Outcome<Kernel>)
    requires IsProc(k, p)
    ensures r.Done? ==> OnlySpace(k, r.value, p)
    decreases |image| - off
  {
    if off >= |image| then Done(k)
    else
      var k1 :- LoadPage(k, p, image, off);
      LoadImage(k1, p, image, off + PAGE_SIZE)
  }

  /** Clears the slot and gives it a root table. */
  function NewRoot(k: Kernel, p: int): (r: Outcome<Kernel>)
    requires IsProc(k, p)
    ensures r.Done? ==> OnlyProc(k, r.value, p)
  {
    var cleared := k.procs[p].(currentIdx := 0, regions := NoRegions(), shm := NoMappings());
    var (k1, root) :- AllocPageFor(SetProc(k, p, cleared), p);
    Done(SetProc(k1, p, k1.procs[p].(pageTable := root * PAGE_SIZE)))
  }

  /** The address space of a new process in slot `p`. */
  function BuildSpace(k: Kernel, p: int, image: seq<Byte>): (r: Outcome<Kernel>)
    requires IsProc(k, p)
    ensures r.Done? ==> OnlyProc(k, r.value, p)
  {
    var k1 :- NewRoot(k, p);
    var k2 :- MapRange(k1, p, KERNEL_BASE, k.ram.hi);
    var k3 :- MapDevices(k2, p, 0);
    LoadImage(k3, p, image, 0)
  }

  /** `create_process`; also gives the slot. */
  function CreateProcess(k: Kernel, image: seq<Byte>): (r: Outcome<(Kernel, int)>)
    ensures r.Done? ==> IsProc(k, r.value.1) && OnlyProc(k, r.value.0, r.value.1)
  {
    var p := FindProcSlot(k.procs, 0);
    if p < 0 then Stopped(NoProcessSlot)
    else
      var k1 :- BuildSpace(k, p, image);
      Done((SetProc(k1, p, k1.procs[p].(pid := p + 1, state := Runnable)), p))
  }

  /** The tail of `init_processes`: the idle process gets pid 0 and becomes the running one. */
  function InitProcesses(k: Kernel): Outcome<Kernel> {
    var (k1, p) :- CreateProcess(k, []);
    Done(SetProc(k1, p, k1.procs[p].(pid := 0)).(current := p, idle := p))
  }

  /** A driver's boot-time `alloc_pages`, which is never released. */
  function AllocDevice(k: Kernel, pages: int): Outcome<Kernel> {
    var (h1, n) :- AllocRegion(k.heap, pages);
    Done(k.(heap := h1, devices := k.devices + [n]))
  }

  /** Pages of the block queue and request, the two network queues, the receive buffers and the
      transmit buffer, in the order the drivers ask for them. */
  const DRIVER_SIZES: seq<nat> := [2, 1, 2, 2, 6, 1]

  function AllocDevices(k: Kernel, sizes: seq<nat>): Outcome<Kernel>
    decreases |sizes|
  {
    if sizes == [] then Done(k)
    else
      var k1 :- AllocDevice(k, sizes[0]);
      AllocDevices(k1, sizes[1..])
  }

  /** `kernel_main` up to `init_processes`, as far as memory goes. */
  function Boot(ram: Ram, mem: Memory, sizes: seq<nat>): Outcome<Kernel> {
    var k :- AllocDevices(Blank(ram, mem), sizes);
    InitProcesses(k)
  }

  // ---- shared memory ----

  function FindById(objs: seq<ShmObject>, id: int, i: nat): (r: int)
    requires i <= |objs|
    ensures r == -1 || (i <= r < |objs| && objs[r].used && objs[r].id == id)
    ensures forall j :: i <= j < (if r < 0 then |objs| else r) ==> !(objs[j].used && objs[j].id == id)
    decreases |objs| - i
  {
    if i == |objs| then -1 else if objs[i].used && objs[i].id == id then i else FindById(objs, id, i + 1)
  }

  function FindByKey(objs: seq<ShmObject>, key: int, i: nat): (r: int)
    requires i <= |objs|
    ensures r == -1 || (i <= r < |objs| && objs[r].used && objs[r].key == key)
    ensures forall j :: i <= j < (if r < 0 then |objs| else r) ==> !(objs[j].used && objs[j].key == key)
    decreases |objs| - i
  {
    if i == |objs| then -1 else if objs[i].used && objs[i].key == key then i else FindByKey(objs, key, i + 1)
  }

  function FindObjectSlot(objs: seq<ShmObject>, i: nat): (r: int)
    requires i <= |objs|
    ensures r == -1 || (i <= r < |objs| && !objs[r].used)
    ensures forall j :: i <= j < (if r < 0 then |objs| else r) ==> objs[j].used
    decreases |objs| - i
  {
    if i == |objs| then -1 else if !objs[i].used then i else FindObjectSlot(objs, i + 1)
  }

  /** `shm_get`; also gives the id, or -1. */
  function ShmGet(k: Kernel, key: int): Outcome<(Kernel, int)> {
    if key <= 0 then Done((k, -1))
    else
      var i := FindByKey(k.objs, key, 0);
      if i >= 0 then Done((k, k.objs[i].id))
      else
        var s := FindObjectSlot(k.objs, 0);
        if s < 0 then Done((k, -1))
        else
          var (h1, n) :- AllocRegion(k.heap, 1);
          var obj := ShmObject(true, k.nextShmId, key, h1.rs[n].start, n, PAGE_SIZE, 0);
          Done((k.(heap := h1, objs := k.objs[s := obj], nextShmId := k.nextShmId + 1), k.nextShmId))
  }

  function FindMappingSlot(maps: seq<ShmMapping>, i: nat): (r: int)
    requires i <= |maps|
    ensures r == -1 || (i <= r < |maps| && !maps[r].used)
    ensures forall j :: i <= j < (if r < 0 then |maps| else r) ==> maps[j].used
    decreases |maps| - i
  {
    if i == |maps| then -1 else if !maps[i].used then i else FindMappingSlot(maps, i + 1)
  }

  function FindMapping(maps: seq<ShmMapping>, vaddr: int, i: nat): (r: int)
    requires i <= |maps|
    ensures r == -1 || (i <= r < |maps| && maps[r].used && maps[r].vaddr == vaddr)
    ensures forall j :: i <= j < (if r < 0 then |maps| else r) ==> !(maps[j].used && maps[j].vaddr == vaddr)
    decreases |maps| - i
  {
    if i == |maps| then -1 else if maps[i].used && maps[i].vaddr == vaddr then i else FindMapping(maps, vaddr, i + 1)
  }

  function SlotVaddr(slot: int): int {
    SHM_USER_BASE + slot * PAGE_SIZE
  }

  /** The table updates of `shm_attach` once the page is mapped. */
  function Attached(k: Kernel, p: int, slot: int, oi: int): Kernel
    requires IsProc(k, p) && 0 <= slot < |k.procs[p].shm| && 0 <= oi < |k.objs|
  {
    var proc := k.procs[p];
    var mapping := ShmMapping(true, k.objs[oi].id, SlotVaddr(slot));
    SetProc(k, p, proc.(shm := proc.shm[slot := mapping]))
    .(objs := k.objs[oi := k.objs[oi].(refcount := k.objs[oi].refcount + 1)])
  }

  /** `shm_attach`; also gives the address, or 0. */
  function ShmAttach(k: Kernel, p: int, id: int): (r: Outcome<(Kernel, int)>)
    requires IsProc(k, p)
    ensures r.Done? ==> OnlyProcAndObjects(k, r.value.0, p)
  {
    var oi := FindById(k.objs, id, 0);
    if oi < 0 then Done((k, 0))
    else
      var slot := FindMappingSlot(k.procs[p].shm, 0);
      if slot < 0 then Done((k, 0))
      else
        var k1 :- MapPage(k, p, SlotVaddr(slot), k.objs[oi].pa, SHM_PERM);
        Done((Attached(k1, p, slot, oi), SlotVaddr(slot)))
  }

  /** The mapping slot is cleared and the object loses one reference. */
  function DropMapping(k: Kernel, p: int, slot: int): Kernel
    requires IsProc(k, p) && 0 <= slot < |k.procs[p].shm|
  {
    SetProc(k, p, k.procs[p].(shm := k.procs[p].shm[slot := NO_MAPPING]))
  }

  function DropReference(k: Kernel, oi: int): (r: Outcome<Kernel>)
    requires 0 <= oi < |k.objs|
    ensures r.Done? ==> |r.value.objs| == |k.objs| && r.value == k.(heap := r.value.heap, objs := r.value.objs)
  {
    var obj := k.objs[oi].(refcount := k.objs[oi].refcount - 1);
    if obj.refcount <= 0 then
      var h1 :- ReleasePages(k.heap, obj.region);
      Done(k.(heap := h1, objs := k.objs[oi := NO_OBJECT]))
    else Done(k.(objs := k.objs[oi := obj]))
  }

  /** `shm_detach` of the mapping in `slot`. */
  function DetachSlot(k: Kernel, p: int, slot: int): (r: Outcome<Kernel>)
    requires IsProc(k, p) && 0 <= slot < |k.procs[p].shm|
    ensures r.Done? ==> OnlyProcAndObjects(k, r.value, p)
  {
    var mapping := k.procs[p].shm[slot];
    var oi := FindById(k.objs, mapping.shmId, 0);
    var k1 :- UnmapPage(k, p, mapping.vaddr);
    var k2 := DropMapping(k1, p, slot);
    if oi >= 0 then DropReference(k2, oi) else Done(k2)
  }

  /** `shm_detach`; also gives 0, or -1 when nothing is mapped there. */
  function ShmDetach(k: Kernel, p: int, vaddr: int): (r: Outcome<(Kernel, int)>)
    requires IsProc(k, p)
    ensures r.Done? ==> OnlyProcAndObjects(k, r.value.0, p)
  {
    var slot := FindMapping(k.procs[p].shm, vaddr, 0);
    if slot < 0 then Done((k, -1))
    else
      var k1 :- DetachSlot(k, p, slot);
      Done((k1, 0))
  }

  /** `shm_process_cleanup` from mapping slot `i` on. */
  function ShmCleanup(k: Kernel, p: int, i: nat): (r: Outcome<Kernel>)
    requires IsProc(k, p) && i <= |k.procs[p].shm|
    ensures r.Done? ==> OnlyProcAndObjects(k, r.value, p)
    decreases |k.procs[p].shm| - i
  {
    if i == |k.procs[p].shm| then Done(k)
    else if !k.procs[p].shm[i].used then ShmCleanup(k, p, i + 1)
    else
      var (k1, _) :- ShmDetach(k, p, k.procs[p].shm[i].vaddr);
      ShmCleanup(k1, p, i + 1)
  }

  /** Cleaning up mappings leaves the region list of the process alone. */
  lemma {:induction false} CleanupKeepsList(k: Kernel, p: int, i: nat)
    requires IsProc(k, p) && i <= |k.procs[p].shm|
    ensures ShmCleanup(k, p, i).Done? ==>
              ShmCleanup(k, p, i).value.procs[p] == k.procs[p].(shm := ShmCleanup(k, p, i).value.procs[p].shm)
    decreases |k.procs[p].shm| - i
  {
    if i < |k.procs[p].shm| {
      if !k.procs[p].shm[i].used {
        CleanupKeepsList(k, p, i + 1);
      } else {
        var r := ShmDetach(k, p, k.procs[p].shm[i].vaddr);
        if r.Done? {
          CleanupKeepsList(r.value.0, p, i + 1);
        }
      }
    }
  }

  // ---- release_process and yield ----

  /** Releases the recorded regions in order; index 0 reads as an empty entry. */
  function ReleaseRegions(h: Heap, held: seq<int>): Outcome<Heap>
    decreases |held|
  {
    if held == [] then Done(h)
    else
      var h1 :- (if held[0] != 0 then ReleasePages(h, held[0]) else Done(h));
      ReleaseRegions(h1, held[1..])
  }

  /** The list with its first `n` entries set to 0. */
  function ZeroedTo(xs: seq<int>, n: nat): seq<int> {
    seq(|xs|, t requires 0 <= t < |xs| => if t < n then 0 else xs[t])
  }

  function ReleasedProcess(proc: Process): Process {
    proc.(pid := 0, state := ProcUnused, pageTable := 0, currentIdx := 0, shm := NoMappings(),
          regions := ZeroedTo(proc.regions, proc.currentIdx))
  }

  function ReleaseProcess(k: Kernel, p: int): (r: Outcome<Kernel>)
    requires IsProc(k, p)
    ensures r.Done? ==> |r.value.procs| == |k.procs| && r.value.current == k.current
  {
    var k1 :- ShmCleanup(k, p, 0);
    var h1 :- ReleaseRegions(k1.heap, k1.procs[p].Held());
    Done(SetProc(k1, p, ReleasedProcess(k1.procs[p])).(heap := h1))
  }

  predicate CanRun(proc: Process) {
    proc.state.Runnable? && proc.pid > 0
  }

  /** The scan of `yield`: the first runnable slot at or after `pid + i`, cyclically. */
  function PickNext(procs: seq<Process>, pid: int, i: nat, fallback: int): int
    requires i <= PROCS_MAX
    decreases PROCS_MAX - i
  {
    if i == PROCS_MAX then fallback
    else
      var s := (pid + i) % PROCS_MAX;
      if s < |procs| && CanRun(procs[s]) then s else PickNext(procs, pid, i + 1, fallback)
  }

  function Switch(k: Kernel): Kernel
    requires IsProc(k, k.current)
  {
    k.(current := PickNext(k.procs, k.procs[k.current].pid, 0, k.idle))
  }

  function Yield(k: Kernel): Outcome<Kernel>
    requires IsProc(k, k.current)
  {
    var k1 :- (if k.procs[k.current].state.Exited? then ReleaseProcess(k, k.current) else Done(k));
    Done(Switch(k1))
  }

  /** SYS_EXIT: mark and yield. */
  function ExitCurrent(k: Kernel): Outcome<Kernel>
    requires IsProc(k, k.current)
  {
    Yield(SetProc(k, k.current, k.procs[k.current].(state := Exited)))
  }
}
