/** Index 0 in a process's record reads as an empty entry (kernel/process.c), so a region with that
    index is lost when the process exits; and what is lost stays lost over every run. */
module Leaks {
  import opened Machine
  import opened Heap
  import opened PageTables
  import opened KernelState
  import opened Ownership
  import opened Creation
  import opened Invariant
  import opened SharedMemory
  import opened Detaching
  import opened ExitSafe
  import opened Isolation
  import opened Runs

  /** `x` is ALLOCATED and nobody has it on record, so nothing will ever release it. */
  ghost predicate Leaked(k: Kernel, x: int) {
    IsAllocated(k.heap.rs, x) && Unheld(k, x)
  }

  // ---- exit ----

  /** Of the regions a process has on record, its exit loses exactly the one with index 0. */
  lemma ExitLeaksIff(k: Kernel, x: int)
    requires Inv(k) && Running(k) && k.current != k.idle && x in k.procs[k.current].Held()
    ensures ExitCurrent(k).Done?
    ensures Leaked(ExitCurrent(k).value, x) <==> x == 0
  {
    hide Base, Policy, ObjectsOk, ExitCurrent, PickNext, SoleRegions;
    ExitFacts(k);
    var p, k1 := k.current, ExitCurrent(k).value;
    OwnNotShared(k, p);
    HeldIsAllocated(k, p, x);
    if x == 0 {
      assert ProcOk(k1, p);
      forall o ensures !Holds(k1, o, x) {
        assert Holds(k1, o, x) <==> Holds(k1.(current := p), o, x);
      }
    }
  }

  lemma HeldIsAllocated(k: Kernel, p: int, x: int)
    requires Inv(k) && IsProc(k, p) && x in k.procs[p].Held()
    ensures IsAllocated(k.heap.rs, x)
    ensures forall o :: Holds(k, o, x) ==> o == OfProcess(p)
  {
    hide Policy, ObjectsOk, ProcsOk, SpaceOk;
    assert Holds(k, OfProcess(p), x);
  }

  // ---- no call looks at the device list ----

  function Lift(r: Outcome<Kernel>, d: seq<int>): Outcome<Kernel> {
    if r.Done? then Done(r.value.(devices := d)) else r
  }

  function Lift2(r: Outcome<(Kernel, int)>, d: seq<int>): Outcome<(Kernel, int)> {
    if r.Done? then Done((r.value.0.(devices := d), r.value.1)) else r
  }

  lemma PageLifts(k: Kernel, p: int, d: seq<int>)
    requires IsProc(k, p)
    ensures AllocPageFor(k.(devices := d), p) == Lift2(AllocPageFor(k, p), d)
  {
    hide AllocRegion;
  }

  lemma MapLifts(k: Kernel, p: int, vaddr: int, paddr: int, perm: Perm, d: seq<int>)
    requires IsProc(k, p)
    ensures MapPage(k.(devices := d), p, vaddr, paddr, perm) == Lift(MapPage(k, p, vaddr, paddr, perm), d)
  {
    hide AllocPageFor, HasTable, WithTable, WithLeaf, EncodePte;
    PageLifts(k, p, d);
  }

  lemma {:induction false} RangeLifts(k: Kernel, p: int, pa: int, hi: int, d: seq<int>)
    requires IsProc(k, p)
    ensures MapRange(k.(devices := d), p, pa, hi) == Lift(MapRange(k, p, pa, hi), d)
    decreases hi - pa
  {
    hide MapPage;
    if pa < hi {
      MapLifts(k, p, pa, pa, KERNEL_PERM, d);
      var r := MapPage(k, p, pa, pa, KERNEL_PERM);
      if r.Done? {
        RangeLifts(r.value, p, pa + PAGE_SIZE, hi, d);
      }
    }
  }

  lemma {:induction false} DevicesLift(k: Kernel, p: int, i: nat, d: seq<int>)
    requires IsProc(k, p) && i <= |DEVICE_PADDRS|
    ensures MapDevices(k.(devices := d), p, i) == Lift(MapDevices(k, p, i), d)
    decreases |DEVICE_PADDRS| - i
  {
    hide MapPage;
    if i < |DEVICE_PADDRS| {
      MapLifts(k, p, DEVICE_PADDRS[i], DEVICE_PADDRS[i], DEVICE_PERM, d);
      var r := MapPage(k, p, DEVICE_PADDRS[i], DEVICE_PADDRS[i], DEVICE_PERM);
      if r.Done? {
        DevicesLift(r.value, p, i + 1, d);
      }
    }
  }

  lemma LoadLifts(k: Kernel, p: int, image: seq<Byte>, off: nat, d: seq<int>)
    requires IsProc(k, p) && off < |image|
    ensures LoadPage(k.(devices := d), p, image, off) == Lift(LoadPage(k, p, image, off), d)
  {
    hide AllocPageFor, MapPage, WritePage, ImagePage;
    PageLifts(k, p, d);
    var r := AllocPageFor(k, p);
    if r.Done? {
      var k2 := SetMem(r.value.0, WritePage(r.value.0.heap.mem, r.value.1, ImagePage(image, off)));
      MapLifts(k2, p, USER_BASE + off, r.value.1 * PAGE_SIZE, IMAGE_PERM, d);
    }
  }

  lemma {:induction false} ImageLifts(k: Kernel, p: int, image: seq<Byte>, off: nat, d: seq<int>)
    requires IsProc(k, p)
    ensures LoadImage(k.(devices := d), p, image, off) == Lift(LoadImage(k, p, image, off), d)
    decreases |image| - off
  {
    hide LoadPage;
    if off < |image| {
      LoadLifts(k, p, image, off, d);
      var r := LoadPage(k, p, image, off);
      if r.Done? {
        ImageLifts(r.value, p, image, off + PAGE_SIZE, d);
      }
    }
  }

  lemma RootLifts(k: Kernel, p: int, d: seq<int>)
    requires IsProc(k, p)
    ensures NewRoot(k.(devices := d), p) == Lift(NewRoot(k, p), d)
  {
    hide AllocPageFor, NoRegions, NoMappings;
    PageLifts(Cleared(k, p), p, d);
    assert Cleared(k.(devices := d), p) == Cleared(k, p).(devices := d);
  }

  lemma CreateLifts(k: Kernel, image: seq<Byte>, d: seq<int>)
    ensures CreateProcess(k.(devices := d), image) == Lift2(CreateProcess(k, image), d)
  {
    hide NewRoot, MapRange, MapDevices, LoadImage;
    var p := FindProcSlot(k.procs, 0);
    if p >= 0 {
      RootLifts(k, p, d);
      var r1 := NewRoot(k, p);
      if r1.Done? {
        RangeLifts(r1.value, p, KERNEL_BASE, k.ram.hi, d);
        var r2 := MapRange(r1.value, p, KERNEL_BASE, k.ram.hi);
        if r2.Done? {
          DevicesLift(r2.value, p, 0, d);
          var r3 := MapDevices(r2.value, p, 0);
          if r3.Done? {
            ImageLifts(r3.value, p, image, 0, d);
          }
        }
      }
    }
  }

  lemma GetLifts(k: Kernel, key: int, d: seq<int>)
    ensures ShmGet(k.(devices := d), key) == Lift2(ShmGet(k, key), d)
  {
    hide AllocRegion;
  }

  lemma AttachLifts(k: Kernel, p: int, id: int, d: seq<int>)
    requires IsProc(k, p)
    ensures ShmAttach(k.(devices := d), p, id) == Lift2(ShmAttach(k, p, id), d)
  {
    hide MapPage;
    var oi, slot := FindById(k.objs, id, 0), FindMappingSlot(k.procs[p].shm, 0);
    if oi >= 0 && slot >= 0 {
      MapLifts(k, p, SlotVaddr(slot), k.objs[oi].pa, SHM_PERM, d);
    }
  }

  lemma DetachLifts(k: Kernel, p: int, vaddr: int, d: seq<int>)
    requires IsProc(k, p)
    ensures ShmDetach(k.(devices := d), p, vaddr) == Lift2(ShmDetach(k, p, vaddr), d)
  {
    hide HasTable, WithLeaf, ReleasePages, FindById, FindMapping;
  }

  lemma {:induction false} CleanupLifts(k: Kernel, p: int, i: nat, d: seq<int>)
    requires IsProc(k, p) && i <= |k.procs[p].shm|
    ensures ShmCleanup(k.(devices := d), p, i) == Lift(ShmCleanup(k, p, i), d)
    decreases |k.procs[p].shm| - i
  {
    hide ShmDetach;
    if i < |k.procs[p].shm| {
      if !k.procs[p].shm[i].used {
        CleanupLifts(k, p, i + 1, d);
      } else {
        DetachLifts(k, p, k.procs[p].shm[i].vaddr, d);
        var r := ShmDetach(k, p, k.procs[p].shm[i].vaddr);
        if r.Done? {
          CleanupLifts(r.value.0, p, i + 1, d);
        }
      }
    }
  }

  lemma YieldLifts(k: Kernel, d: seq<int>)
    requires IsProc(k, k.current)
    ensures Yield(k.(devices := d)) == Lift(Yield(k), d)
  {
    hide ShmCleanup, ReleaseRegions, ReleasedProcess, PickNext;
    CleanupLifts(k, k.current, 0, d);
  }

  lemma StepLifts(k: Kernel, op: Op, d: seq<int>)
    requires !op.DeviceWrite?
    ensures Step(k.(devices := d), op) == Lift(Step(k, op), d)
  {
    hide CreateProcess, ShmGet, ShmAttach, ShmDetach, Yield, Walk;
    if IsProc(k, k.current) {
      match op {
        case Create(image) => CreateLifts(k, image, d);
        case Get(key) => GetLifts(k, key, d);
        case Attach(id) => AttachLifts(k, k.current, id, d);
        case Detach(vaddr) => DetachLifts(k, k.current, vaddr, d);
        case Exit => YieldLifts(SetProc(k, k.current, k.procs[k.current].(state := Exited)), d);
        case YieldNow => YieldLifts(k, d);
        case UserWrite(vaddr, b) =>
      }
    }
  }

  // ---- over runs ----

  /** `k` with the lost region put on record as if a device held it. */
  ghost function Adopted(k: Kernel, x: int): Kernel {
    k.(devices := k.devices + [x])
  }

  lemma AdoptedHolds(k: Kernel, x: int, o: Owner, y: int)
    ensures Holds(Adopted(k, x), o, y) <==> Holds(k, o, y) || (o == OfDevice && y == x)
  {
  }

  lemma AdoptInv(k: Kernel, x: int)
    requires Inv(k) && Leaked(k, x)
    ensures Inv(Adopted(k, x))
  {
    hide SpacePolicy, Tables, CountRefs;
    var k1 := Adopted(k, x);
    forall o, y ensures Holds(k1, o, y) <==> Holds(k, o, y) || (o == OfDevice && y == x) {
      AdoptedHolds(k, x, o, y);
    }
    assert Owned(k1);
    forall q ensures SpaceOk(k1, q) {
      assert SpaceOk(k, q);
      if IsProc(k, q) {
        assert Own(k1, q) == Own(k, q);
      }
    }
    forall q | IsProc(k1, q) ensures |k1.procs[q].shm| == PROC_SHM_MAX && SpacePolicy(k1, q) {
      PolicyOfRecord(k, k1, q);
    }
    forall i | 0 <= i < |k.objs| ensures ObjectOk(k1, i) {
      assert ObjectOk(k, i);
    }
    ProcsKept(k, k1);
  }

  lemma StillLeaked(k: Kernel, x: int)
    requires Inv(Adopted(k, x)) && x !in k.devices
    ensures Leaked(k, x)
  {
    hide Policy, ObjectsOk, ProcsOk, SpaceOk;
    var k1 := Adopted(k, x);
    forall o, y ensures Holds(k1, o, y) <==> Holds(k, o, y) || (o == OfDevice && y == x) {
      AdoptedHolds(k, x, o, y);
    }
    assert Holds(k1, OfDevice, x);
  }

  lemma DmaKeepsTables(k: Kernel, x: int, ppn: int, page: Page)
    ensures DmaWrite(k, x, ppn, page) == SetMem(k, DmaWrite(k, x, ppn, page).heap.mem)
  {
  }

  /** No step brings a lost region back. */
  lemma LeakedStep(k: Kernel, op: Op, x: int)
    requires Inv(k) && Running(k) && Leaked(k, x) && Step(k, op).Done?
    ensures Leaked(Step(k, op).value, x)
  {
    hide Inv, Running;
    var k1 := Step(k, op).value;
    assert x !in k.devices by {
      assert !Holds(k, OfDevice, x);
    }
    if op.DeviceWrite? {
      hide Step;
      DmaStep(k, op);
      DmaKeepsTables(k, op.x, op.ppn, op.page);
      assert forall o :: Holds(k1, o, x) <==> Holds(k, o, x);
    } else {
      hide Step;
      StepLifts(k, op, k.devices);
      StepLifts(k, op, k.devices + [x]);
      assert k1.devices == k.devices;
      AdoptInv(k, x);
      AdoptRunning(k, x);
      StepInv(Adopted(k, x), op);
      StillLeaked(k1, x);
    }
  }

  lemma DmaStep(k: Kernel, op: Op)
    requires op.DeviceWrite? && Step(k, op).Done?
    ensures Step(k, op).value == DmaWrite(k, op.x, op.ppn, op.page)
  {
  }

  lemma AdoptRunning(k: Kernel, x: int)
    requires Running(k)
    ensures Running(Adopted(k, x))
  {
  }

  /** A region that is ALLOCATED but on nobody's record stays so over every run. */
  lemma {:induction false} LeakedForever(k: Kernel, ops: seq<Op>, x: int)
    requires Inv(k) && Running(k) && Leaked(k, x) && Run(k, ops).Done?
    ensures Leaked(Run(k, ops).value, x)
    decreases |ops|
  {
    hide Inv, Running, Step, Leaked;
    if ops != [] {
      LeakedStep(k, ops[0], x);
      StepInv(k, ops[0]);
      LeakedForever(Step(k, ops[0]).value, ops[1..], x);
    }
  }
}
