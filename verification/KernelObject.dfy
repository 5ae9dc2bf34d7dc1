/** kernel/process.c and kernel/shm.c as they run: global tables updated in place. Each method is
    proved equal to the function of `KernelState` that describes the call. When a method returns
    `Stopped` the kernel has panicked and its state no longer matters. */
module KernelObject {
  import opened Machine
  import opened Regions
  import opened Heap
  import opened PageTables
  import opened PageAllocator
  import KS = KernelState
  import opened KernelState

  class KernelTables {
    const alloc: Allocator
    const procs: array<Process>
    const objs: array<ShmObject>
    var nextShmId: int
    var devices: seq<int>
    var current: int
    var idle: int

    ghost function View(): Kernel
      reads this, alloc, alloc.regions, procs, objs
    {
      Kernel(alloc.ram, alloc.View(), procs[..], objs[..], nextShmId, devices, current, idle)
    }

    ghost predicate Valid()
      reads this, alloc, alloc.regions, procs, objs
    {
      && alloc.Valid()
      && procs.Length == PROCS_MAX
      && objs.Length == SHM_MAX
      && (forall p :: 0 <= p < procs.Length ==> |procs[p].regions| == PROC_REGION_MAX && |procs[p].shm| == PROC_SHM_MAX)
    }

    constructor (ram: Ram, mem: Memory)
      requires ram.Ok()
      requires forall p :: ram.lo / PAGE_SIZE <= p < ram.hi / PAGE_SIZE ==> p in mem
      ensures Valid() && View() == Blank(ram, mem)
      ensures fresh(alloc) && fresh(alloc.regions) && fresh(procs) && fresh(objs)
    {
      alloc := new Allocator(ram, mem);
      procs := new Process[PROCS_MAX](_ => BlankProcess());
      objs := new ShmObject[SHM_MAX](_ => NO_OBJECT);
      nextShmId := 1;
      devices := [];
      current := -1;
      idle := -1;
      new;
      assert procs[..] == seq(PROCS_MAX, _ => BlankProcess());
      assert objs[..] == seq(SHM_MAX, _ => NO_OBJECT);
    }

    // ---- page tables ----

    /** `*(uint32_t *) address = w` inside page `ppn`. */
    method StoreWord(ppn: int, i: int, w: Word)
      requires Valid() && 0 <= i < WORDS_PER_PAGE
      modifies alloc
      ensures Valid() && View() == SetMem(old(View()), Store(old(alloc.mem), ppn, i, w))
    {
      alloc.mem := Store(alloc.mem, ppn, i, w);
    }

    method RecordRegion(p: int, idx: int) returns (r: Outcome<()>)
      requires Valid() && 0 <= p < procs.Length
      modifies procs
      ensures match Record(old(procs[p]), idx)
              case Stopped(why) => r == Stopped(why)
              case Done(proc1) => r == Done(()) && Valid() && View() == SetProc(old(View()), p, proc1)
    {
      if procs[p].currentIdx >= PROC_REGION_MAX {
        return Stopped(RegionTableFull);
      }
      ghost var was := procs[..];
      var at := procs[p].currentIdx;
      procs[p] := procs[p].(regions := procs[p].regions[at := idx]);
      procs[p] := procs[p].(currentIdx := at + 1);
      assert procs[..] == was[p := procs[p]];
      return Done(());
    }

    method MapPage(p: int, vaddr: int, paddr: int, perm: Perm) returns (r: Outcome<()>)
      requires Valid() && 0 <= p < procs.Length
      modifies alloc, alloc.regions, procs
      ensures match KS.MapPage(old(View()), p, vaddr, paddr, perm)
              case Stopped(why) => r == Stopped(why)
              case Done(k1) => r == Done(()) && Valid() && View() == k1
    {
      hide HeapOk, AllocRegion, EncodePte;
      var root := procs[p].Root();
      if vaddr % PAGE_SIZE != 0 || paddr % PAGE_SIZE != 0 {
        return Stopped(Unaligned);
      }
      var vpn := Vpn(vaddr);
      var vpn1 := vpn / 1024;
      if !PteValid(Load(alloc.mem, root, vpn1)) {
        var page :- alloc.AllocPages(1);
        var _ :- RecordRegion(p, page.0);
        StoreWord(root, vpn1, EncodePte(page.1 / PAGE_SIZE, NO_PERM));
      }
      var table0 := PtePpn(Load(alloc.mem, root, vpn1));
      StoreWord(table0, vpn % 1024, EncodePte(paddr / PAGE_SIZE, perm));
      return Done(());
    }

    method UnmapPage(p: int, vaddr: int) returns (r: Outcome<()>)
      requires Valid() && 0 <= p < procs.Length
      modifies alloc
      ensures match KS.UnmapPage(old(View()), p, vaddr)
              case Stopped(why) => r == Stopped(why)
              case Done(k1) => r == Done(()) && Valid() && View() == k1
    {
      var root := procs[p].Root();
      if vaddr % PAGE_SIZE != 0 {
        return Stopped(Unaligned);
      }
      var vpn := Vpn(vaddr);
      if !PteValid(Load(alloc.mem, root, vpn / 1024)) {
        return Done(());
      }
      StoreWord(PtePpn(Load(alloc.mem, root, vpn / 1024)), vpn % 1024, 0);
      return Done(());
    }

    // ---- processes ----

    method FindFreeProcess() returns (r: int)
      requires Valid()
      ensures r == FindProcSlot(procs[..], 0)
    {
      for i := 0 to procs.Length
        invariant FindProcSlot(procs[..], 0) == FindProcSlot(procs[..], i)
      {
        if procs[i].state == ProcUnused {
          return i;
        }
      }
      return -1;
    }

    /** The start of `create_process`: clear the slot, allocate the root table. */
    method PrepareSlot(p: int) returns (r: Outcome<()>)
      requires Valid() && 0 <= p < procs.Length
      modifies alloc, alloc.regions, procs
      ensures match NewRoot(old(View()), p)
              case Stopped(why) => r == Stopped(why)
              case Done(k1) => r == Done(()) && Valid() && View() == k1
    {
      hide HeapOk, AllocRegion;
      ghost var k0 := View();
      procs[p] := procs[p].(currentIdx := 0);
      procs[p] := procs[p].(regions := NoRegions());
      procs[p] := procs[p].(shm := NoMappings());
      assert View() == SetProc(k0, p, procs[p]);
      var page :- alloc.AllocPages(1);
      var root := page.1 / PAGE_SIZE;
      var _ := RecordRegion(p, page.0);
      ghost var k1 := View();
      procs[p] := procs[p].(pageTable := root * PAGE_SIZE);
      assert View() == SetProc(k1, p, procs[p]);
      return Done(());
    }

    method MapKernel(p: int) returns (r: Outcome<()>)
      requires Valid() && 0 <= p < procs.Length
      modifies alloc, alloc.regions, procs
      ensures match MapRange(old(View()), p, KERNEL_BASE, old(View()).ram.hi)
              case Stopped(why) => r == Stopped(why)
              case Done(k1) => r == Done(()) && Valid() && View() == k1
    {
      hide HeapOk, KS.MapPage;
      ghost var k0 := View();
      var paddr := KERNEL_BASE;
      while paddr < alloc.ram.hi
        invariant Valid() && View().ram == k0.ram
        invariant MapRange(View(), p, paddr, k0.ram.hi) == MapRange(k0, p, KERNEL_BASE, k0.ram.hi)
        decreases alloc.ram.hi - paddr
      {
        var _ :- MapPage(p, paddr, paddr, KERNEL_PERM);
        paddr := paddr + PAGE_SIZE;
      }
      return Done(());
    }

    method MapDeviceRegisters(p: int) returns (r: Outcome<()>)
      requires Valid() && 0 <= p < procs.Length
      modifies alloc, alloc.regions, procs
      ensures match MapDevices(old(View()), p, 0)
              case Stopped(why) => r == Stopped(why)
              case Done(k1) => r == Done(()) && Valid() && View() == k1
    {
      hide HeapOk, KS.MapPage;
      ghost var k0 := View();
      for i := 0 to |DEVICE_PADDRS|
        invariant Valid()
        invariant MapDevices(View(), p, i) == MapDevices(k0, p, 0)
      {
        var _ :- MapPage(p, DEVICE_PADDRS[i], DEVICE_PADDRS[i], DEVICE_PERM);
      }
      return Done(());
    }

    method LoadUserPage(p: int, image: seq<Byte>, off: nat) returns (r: Outcome<()>)
      requires Valid() && 0 <= p < procs.Length && off < |image|
      modifies alloc, alloc.regions, procs
      ensures match LoadPage(old(View()), p, image, off)
              case Stopped(why) => r == Stopped(why)
              case Done(k1) => r == Done(()) && Valid() && View() == k1
    {
      hide HeapOk, KS.MapPage, AllocRegion, ImagePage;
      var page :- alloc.AllocPages(1);
      var ppn := page.1 / PAGE_SIZE;
      var _ :- RecordRegion(p, page.0);
      HeapKeys(alloc.View(), alloc.ram);
      alloc.mem := WritePage(alloc.mem, ppn, ImagePage(image, off));
      r := MapPage(p, USER_BASE + off, ppn * PAGE_SIZE, IMAGE_PERM);
    }

    method LoadUserImage(p: int, image: seq<Byte>) returns (r: Outcome<()>)
      requires Valid() && 0 <= p < procs.Length
      modifies alloc, alloc.regions, procs
      ensures match LoadImage(old(View()), p, image, 0)
              case Stopped(why) => r == Stopped(why)
              case Done(k1) => r == Done(()) && Valid() && View() == k1
    {
      hide HeapOk, LoadPage;
      ghost var k0 := View();
      var off: nat := 0;
      while off < |image|
        invariant Valid()
        invariant LoadImage(View(), p, image, off) == LoadImage(k0, p, image, 0)
        decreases |image| - off
      {
        var _ :- LoadUserPage(p, image, off);
        off := off + PAGE_SIZE;
      }
      return Done(());
    }

    method BuildAddressSpace(p: int, image: seq<Byte>) returns (r: Outcome<()>)
      requires Valid() && 0 <= p < procs.Length
      modifies alloc, alloc.regions, procs
      ensures match BuildSpace(old(View()), p, image)
              case Stopped(why) => r == Stopped(why)
              case Done(k1) => r == Done(()) && Valid() && View() == k1
    {
      hide NewRoot, MapRange, MapDevices, LoadImage, HeapOk;
      var _ :- PrepareSlot(p);
      var _ :- MapKernel(p);
      var _ :- MapDeviceRegisters(p);
      r := LoadUserImage(p, image);
    }

    /** `create_process`; gives the slot. */
    method Create(image: seq<Byte>) returns (r: Outcome<int>)
      requires Valid()
      modifies alloc, alloc.regions, procs
      ensures match CreateProcess(old(View()), image)
              case Stopped(why) => r == Stopped(why)
              case Done((k1, p)) => r == Done(p) && Valid() && View() == k1
    {
      hide BuildSpace, HeapOk;
      var p := FindFreeProcess();
      if p < 0 {
        return Stopped(NoProcessSlot);
      }
      var _ :- BuildAddressSpace(p, image);
      ghost var k4 := View();
      procs[p] := procs[p].(pid := p + 1);
      procs[p] := procs[p].(state := Runnable);
      assert View() == SetProc(k4, p, procs[p]);
      return Done(p);
    }

    /** `init_processes`, on the cleared process table the kernel starts with. */
    method Init() returns (r: Outcome<()>)
      requires Valid() && forall p :: 0 <= p < procs.Length ==> procs[p] == BlankProcess()
      modifies this`current, this`idle, alloc, alloc.regions, procs
      ensures match InitProcesses(old(View()))
              case Stopped(why) => r == Stopped(why)
              case Done(k1) => r == Done(()) && Valid() && View() == k1
    {
      hide HeapOk, CreateProcess;
      for i := 0 to procs.Length
        invariant View() == old(View()) && Valid()
        invariant forall p :: 0 <= p < procs.Length ==> procs[p] == BlankProcess()
      {
        procs[i] := procs[i].(pid := 0, state := ProcUnused, regions := NoRegions(), shm := NoMappings());
        assert procs[..] == old(procs[..]);
      }
      var p :- Create([]);
      ghost var k1 := View();
      idle := p;
      procs[p] := procs[p].(pid := 0);
      current := p;
      assert procs[..] == k1.procs[p := procs[p]];
      return Done(());
    }

    /** A driver's boot-time `alloc_pages`. */
    method AllocForDevice(pages: int) returns (r: Outcome<int>)
      requires Valid() && Askable(pages)
      modifies this`devices, alloc, alloc.regions
      ensures match AllocDevice(old(View()), pages)
              case Stopped(why) => r == Stopped(why)
              case Done(k1) => r.Done? && Valid() && View() == k1
    {
      hide HeapOk;
      var page :- alloc.AllocPages(pages);
      devices := devices + [page.0];
      return Done(page.1);
    }

    /** The boot-time allocations of `virtio_blk_init` and `virtio_net_init`. */
    method StartDrivers() returns (r: Outcome<()>)
      requires Valid()
      modifies this`devices, alloc, alloc.regions
      ensures match AllocDevices(old(View()), DRIVER_SIZES)
              case Stopped(why) => r == Stopped(why)
              case Done(k1) => r == Done(()) && Valid() && View() == k1
    {
      hide HeapOk, AllocDevice;
      DriverSteps(View());
      var _ :- AllocForDevice(2);
      var _ :- AllocForDevice(1);
      var _ :- AllocForDevice(2);
      var _ :- AllocForDevice(2);
      var _ :- AllocForDevice(6);
      var _ :- AllocForDevice(1);
      return Done(());
    }

    /** `kernel_main` up to `init_processes`. */
    method BootUp() returns (r: Outcome<()>)
      requires Valid() && View() == Blank(alloc.ram, alloc.mem)
      modifies this, alloc, alloc.regions, procs
      ensures match Boot(alloc.ram, old(alloc.mem), DRIVER_SIZES)
              case Stopped(why) => r == Stopped(why)
              case Done(k1) => r == Done(()) && Valid() && View() == k1
    {
      hide HeapOk, AllocDevices, InitProcesses;
      var _ :- StartDrivers();
      r := Init();
    }

    // ---- shared memory ----

    method FindObjectById(id: int) returns (r: int)
      requires Valid()
      ensures r == FindById(objs[..], id, 0)
    {
      for i := 0 to objs.Length
        invariant FindById(objs[..], id, 0) == FindById(objs[..], id, i)
      {
        if objs[i].used && objs[i].id == id {
          return i;
        }
      }
      return -1;
    }

    method FindObjectByKey(key: int) returns (r: int)
      requires Valid()
      ensures r == FindByKey(objs[..], key, 0)
    {
      for i := 0 to objs.Length
        invariant FindByKey(objs[..], key, 0) == FindByKey(objs[..], key, i)
      {
        if objs[i].used && objs[i].key == key {
          return i;
        }
      }
      return -1;
    }

    method Get(key: int) returns (r: Outcome<int>)
      requires Valid()
      modifies this`nextShmId, alloc, alloc.regions, objs
      ensures match ShmGet(old(View()), key)
              case Stopped(why) => r == Stopped(why)
              case Done((k1, id)) => r == Done(id) && Valid() && View() == k1
    {
      hide HeapOk, AllocRegion;
      if key <= 0 {
        return Done(-1);
      }
      var found := FindObjectByKey(key);
      if found >= 0 {
        return Done(objs[found].id);
      }
      for i := 0 to objs.Length
        invariant View() == old(View()) && Valid()
        invariant FindObjectSlot(objs[..], 0) == FindObjectSlot(objs[..], i)
      {
        if !objs[i].used {
          ghost var k0 := View();
          var page :- alloc.AllocPages(1);
          var id := nextShmId;
          nextShmId := nextShmId + 1;
          objs[i] := ShmObject(true, id, key, page.1, page.0, PAGE_SIZE, 0);
          assert objs[..] == k0.objs[i := objs[i]];
          return Done(id);
        }
      }
      return Done(-1);
    }

    method Attach(p: int, id: int) returns (r: Outcome<int>)
      requires Valid() && 0 <= p < procs.Length
      modifies alloc, alloc.regions, procs, objs
      ensures match ShmAttach(old(View()), p, id)
              case Stopped(why) => r == Stopped(why)
              case Done((k1, vaddr)) => r == Done(vaddr) && Valid() && View() == k1
    {
      hide HeapOk, KS.MapPage;
      var oi := FindObjectById(id);
      if oi < 0 {
        return Done(0);
      }
      var slot := -1;
      for i := 0 to PROC_SHM_MAX
        invariant slot == -1 && FindMappingSlot(procs[p].shm, 0) == FindMappingSlot(procs[p].shm, i)
      {
        if !procs[p].shm[i].used {
          slot := i;
          break;
        }
      }
      if slot < 0 {
        return Done(0);
      }
      var vaddr := SlotVaddr(slot);
      var _ :- MapPage(p, vaddr, objs[oi].pa, SHM_PERM);
      ghost var k1 := View();
      procs[p] := procs[p].(shm := procs[p].shm[slot := ShmMapping(true, id, vaddr)]);
      objs[oi] := objs[oi].(refcount := objs[oi].refcount + 1);
      assert procs[..] == k1.procs[p := procs[p]] && objs[..] == k1.objs[oi := objs[oi]];
      return Done(vaddr);
    }

    /** The reference count drops; at zero the page and the object go. */
    method Unreference(oi: int) returns (r: Outcome<()>)
      requires Valid() && 0 <= oi < objs.Length
      modifies alloc.regions, objs
      ensures match DropReference(old(View()), oi)
              case Stopped(why) => r == Stopped(why)
              case Done(k1) => r == Done(()) && Valid() && View() == k1
    {
      hide HeapOk, ReleasePages;
      ghost var k0 := View();
      objs[oi] := objs[oi].(refcount := objs[oi].refcount - 1);
      if objs[oi].refcount <= 0 {
        var _ :- alloc.ReleaseRegion(objs[oi].region);
        objs[oi] := ShmObject(false, 0, 0, 0, 0, 0, 0);
      }
      assert objs[..] == k0.objs[oi := objs[oi]];
      return Done(());
    }

    method DetachAt(p: int, slot: int) returns (r: Outcome<()>)
      requires Valid() && 0 <= p < procs.Length && 0 <= slot < PROC_SHM_MAX
      modifies alloc, alloc.regions, procs, objs
      ensures match DetachSlot(old(View()), p, slot)
              case Stopped(why) => r == Stopped(why)
              case Done(k1) => r == Done(()) && Valid() && View() == k1
    {
      hide HeapOk, KS.UnmapPage, DropReference;
      var oi := FindObjectById(procs[p].shm[slot].shmId);
      var _ :- UnmapPage(p, procs[p].shm[slot].vaddr);
      ghost var k1 := View();
      procs[p] := procs[p].(shm := procs[p].shm[slot := ShmMapping(false, 0, 0)]);
      assert View() == DropMapping(k1, p, slot);
      if oi >= 0 {
        var _ :- Unreference(oi);
      }
      return Done(());
    }

    method Detach(p: int, vaddr: int) returns (r: Outcome<int>)
      requires Valid() && 0 <= p < procs.Length
      modifies alloc, alloc.regions, procs, objs
      ensures match ShmDetach(old(View()), p, vaddr)
              case Stopped(why) => r == Stopped(why)
              case Done((k1, code)) => r == Done(code) && Valid() && View() == k1
    {
      hide HeapOk, DetachSlot;
      for i := 0 to PROC_SHM_MAX
        invariant View() == old(View()) && Valid()
        invariant FindMapping(procs[p].shm, vaddr, 0) == FindMapping(procs[p].shm, vaddr, i)
      {
        if !procs[p].shm[i].used || procs[p].shm[i].vaddr != vaddr {
          continue;
        }
        var _ :- DetachAt(p, i);
        return Done(0);
      }
      return Done(-1);
    }

    method Cleanup(p: int) returns (r: Outcome<()>)
      requires Valid() && 0 <= p < procs.Length
      modifies alloc, alloc.regions, procs, objs
      ensures match ShmCleanup(old(View()), p, 0)
              case Stopped(why) => r == Stopped(why)
              case Done(k1) => r == Done(()) && Valid() && View() == k1
    {
      hide HeapOk, ShmDetach;
      ghost var k0 := View();
      for i := 0 to PROC_SHM_MAX
        invariant Valid()
        invariant ShmCleanup(View(), p, i) == ShmCleanup(k0, p, 0)
      {
        if procs[p].shm[i].used {
          var _ :- Detach(p, procs[p].shm[i].vaddr);
        }
      }
      return Done(());
    }

    // ---- exit and yield ----

    method ReleaseRecorded(p: int) returns (r: Outcome<()>)
      requires Valid() && 0 <= p < procs.Length && procs[p].currentIdx <= PROC_REGION_MAX
      modifies alloc.regions, procs
      ensures match ReleaseRegions(old(View()).heap, old(procs[p].Held()))
              case Stopped(why) => r == Stopped(why)
              case Done(h1) =>
                && r == Done(()) && Valid()
                && var was := old(procs[p]);
                View() == SetProc(old(View()), p, was.(regions := ZeroedTo(was.regions, was.currentIdx))).(heap := h1)
    {
      hide HeapOk, ReleasePages;
      ghost var k0 := View();
      var n := procs[p].currentIdx;
      var i := 0;
      assert ZeroedTo(k0.procs[p].regions, 0) == k0.procs[p].regions;
      while i < n
        invariant 0 <= i <= n && Valid() && alloc.mem == k0.heap.mem
        invariant procs[..] == k0.procs[p := k0.procs[p].(regions := ZeroedTo(k0.procs[p].regions, i))]
        invariant ReleaseRegions(alloc.View(), k0.procs[p].regions[i..n]) ==
                  ReleaseRegions(k0.heap, k0.procs[p].regions[..n])
      {
        ghost var rest := k0.procs[p].regions[i..n];
        assert rest[0] == procs[p].regions[i] && rest[1..] == k0.procs[p].regions[i + 1..n];
        if procs[p].regions[i] != 0 {
          var _ :- alloc.ReleaseRegion(procs[p].regions[i]);
          procs[p] := procs[p].(regions := procs[p].regions[i := 0]);
        }
        assert procs[p].regions == ZeroedTo(k0.procs[p].regions, i + 1);
        i := i + 1;
      }
      return Done(());
    }

    method Release(p: int) returns (r: Outcome<()>)
      requires Valid() && 0 <= p < procs.Length && procs[p].currentIdx <= PROC_REGION_MAX
      modifies alloc, alloc.regions, procs, objs
      ensures match ReleaseProcess(old(View()), p)
              case Stopped(why) => r == Stopped(why)
              case Done(k1) => r == Done(()) && Valid() && View() == k1
    {
      hide HeapOk, ShmCleanup, ReleaseRegions;
      KS.CleanupKeepsList(View(), p, 0);
      var _ :- Cleanup(p);
      ghost var k1 := View();
      var _ :- ReleaseRecorded(p);
      procs[p] := procs[p].(pid := 0, state := ProcUnused, pageTable := 0, currentIdx := 0);
      var i := 0;
      while i < PROC_SHM_MAX
        invariant 0 <= i <= PROC_SHM_MAX && |procs[p].shm| == PROC_SHM_MAX
        invariant procs[..] == k1.procs[p := ReleasedProcess(k1.procs[p]).(shm := procs[p].shm)]
        invariant forall s :: 0 <= s < i ==> procs[p].shm[s] == NO_MAPPING
        invariant alloc.View() == ReleaseRegions(k1.heap, k1.procs[p].Held()).value && alloc.Valid()
        invariant objs[..] == k1.objs
      {
        procs[p] := procs[p].(shm := procs[p].shm[i := ShmMapping(false, 0, 0)]);
        i := i + 1;
      }
      assert procs[p].shm == NoMappings();
      return Done(());
    }

    /** The scan of `yield`. */
    method PickProcess(pid: int) returns (next: int)
      requires Valid()
      ensures next == PickNext(procs[..], pid, 0, idle)
    {
      next := idle;
      for i := 0 to PROCS_MAX
        invariant next == idle
        invariant PickNext(procs[..], pid, 0, idle) == PickNext(procs[..], pid, i, idle)
      {
        var s := (pid + i) % PROCS_MAX;
        if procs[s].state == Runnable && procs[s].pid > 0 {
          next := s;
          break;
        }
      }
    }

    method YieldCpu() returns (r: Outcome<()>)
      requires Valid() && 0 <= current < procs.Length && procs[current].currentIdx <= PROC_REGION_MAX
      modifies this`current, alloc, alloc.regions, procs, objs
      ensures match Yield(old(View()))
              case Stopped(why) => r == Stopped(why)
              case Done(k1) => r == Done(()) && Valid() && View() == k1
    {
      hide HeapOk, ReleaseProcess, PickNext;
      if procs[current].state == Exited {
        var _ :- Release(current);
      }
      var next := PickProcess(procs[current].pid);
      if next == current {
        return Done(());
      }
      current := next;
      return Done(());
    }
  }

  /** The six allocations one after the other. */
  lemma DriverSteps(k: Kernel)
    ensures AllocDevices(k, DRIVER_SIZES) ==
            (var k1 :- AllocDevice(k, 2);
             var k2 :- AllocDevice(k1, 1);
             var k3 :- AllocDevice(k2, 2);
             var k4 :- AllocDevice(k3, 2);
             var k5 :- AllocDevice(k4, 6);
             AllocDevice(k5, 1))
  {
    hide AllocDevice;
    assert DRIVER_SIZES == [2] + [1, 2, 2, 6, 1] && [1, 2, 2, 6, 1] == [1] + [2, 2, 6, 1];
    assert [2, 2, 6, 1] == [2] + [2, 6, 1] && [2, 6, 1] == [2] + [6, 1] && [6, 1] == [6] + [1] && [1] == [1] + [];
    forall k, n, rest ensures AllocDevices(k, [n] + rest) == (var k1 :- AllocDevice(k, n); AllocDevices(k1, rest)) {
      assert ([n] + rest)[1..] == rest;
    }
  }
}
