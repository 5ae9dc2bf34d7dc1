/** What user programs can do with their addresses, in the numbers of the memory map: which pages they may
    read, write and execute, and that a store arrives (kernel/process.c, kernel/shm.c, user/shell.c). */
module UserView {
  import opened Machine
  import opened Heap
  import opened PageTables
  import opened KernelState
  import opened Ownership
  import opened Mapping
  import opened Creation
  import opened Invariant
  import opened Capacity
  import opened CreateSafe
  import opened SharedMemory
  import opened Isolation
  import opened ShmAnswers

  // ---- the tables in numbers ----

  /** Eight processes with 64 region indices and four mappings each, and eight shared objects. */
  lemma TableSizes(k: Kernel, p: int)
    requires Inv(k) && IsProc(k, p)
    ensures |k.procs| == 8 && |k.objs| == 8 && |k.procs[p].regions| == 64 && |k.procs[p].shm| == 4
  {
  }

  // ---- stores ----

  /** A user store succeeds on every page that is mapped with U and W. */
  lemma WritableStores(k: Kernel, p: int, vaddr: int, b: Byte)
    requires Inv(k) && Rooted(k, p)
    requires Translate(k, p, Vpn(vaddr)).Some? && Translate(k, p, Vpn(vaddr)).value.perm.u
    requires Translate(k, p, Vpn(vaddr)).value.perm.w
    ensures Translate(k, p, Vpn(vaddr)).value.ppn in k.heap.mem
    ensures UserStore(k, p, vaddr, b).Done?
  {
    hide Inv, Translate, Private, SharedVia;
    var o, x := ReachOwner(k, p, Vpn(vaddr), Translate(k, p, Vpn(vaddr)).value.ppn);
  }

  // ---- shared memory ----

  /** The slot behind an address that `shm_attach` gave: the first unused one. */
  lemma AttachGives(k: Kernel, p: int, id: int) returns (s: int)
    requires Inv(k) && Rooted(k, p) && ShmAttach(k, p, id).Done? && ShmAttach(k, p, id).value.1 != 0
    ensures var (k1, va) := ShmAttach(k, p, id).value;
            && 0 <= s < 4 && va == 0x170_0000 + s * 0x1000
            && |k.procs[p].shm| == 4 && !k.procs[p].shm[s].used && (forall j :: 0 <= j < s ==> k.procs[p].shm[j].used)
            && IsProc(k1, p) && k1.procs[p].shm == k.procs[p].shm[s := ShmMapping(true, id, va)]
            && Inv(k1) && Rooted(k1, p)
  {
    hide Inv, MapPage, KeepsOthers, Extends;
    InvBase(k, p);
    s := FindMappingSlot(k.procs[p].shm, 0);
    ShmAttachInv(k, p, id);
    AttachRooted(k, p, id);
  }

  lemma AttachRooted(k: Kernel, p: int, id: int)
    requires Inv(k) && Rooted(k, p) && ShmAttach(k, p, id).Done?
    ensures IsProc(ShmAttach(k, p, id).value.0, p) && Rooted(ShmAttach(k, p, id).value.0, p)
  {
    hide MapPage, Policy, Extends;
    var oi, slot := FindById(k.objs, id, 0), FindMappingSlot(k.procs[p].shm, 0);
    if oi >= 0 && slot >= 0 {
      InvBase(k, p);
      ObjectAddress(k, oi);
      MapPageRefines(k, p, SlotVaddr(slot), k.objs[oi].pa, SHM_PERM);
      ExtendsGives(k, MapPage(k, p, SlotVaddr(slot), k.objs[oi].pa, SHM_PERM).value, p);
    }
  }

  /** Every byte of a mapping in use is there to be stored to, and leads to the page of its object. */
  lemma MappingWritable(k: Kernel, p: int, s: int, o: int, b: Byte)
    requires Inv(k) && Rooted(k, p) && |k.procs[p].shm| == 4 && 0 <= s < 4 && k.procs[p].shm[s].used && 0 <= o < 0x1000
    ensures UserStore(k, p, 0x170_0000 + s * 0x1000 + o, b).Done?
    ensures var leaf := Translate(k, p, Vpn(0x170_0000 + s * 0x1000 + o));
            && leaf.Some? && leaf.value.ppn in k.heap.mem
            && ObjectPage(k.objs, k.procs[p].shm[s].shmId) == Some(leaf.value.ppn)
  {
    hide Base, ObjectsOk, ProcsOk, Walk, ObjectPage;
    MappedIdLive(k, p, s);
    WindowByte(s, o);
    WritableStores(k, p, 0x170_0000 + s * 0x1000 + o, b);
  }

  lemma WindowByte(s: int, o: int)
    requires 0 <= s < 4 && 0 <= o < 0x1000
    ensures Vpn(0x170_0000 + s * 0x1000 + o) == SHM_VPN + s && (0x170_0000 + s * 0x1000 + o) % PAGE_SIZE == o
  {
  }

  /** Two mappings of one object, of one process or of two: what is stored through the first is read
      through the second. */
  lemma MappingsShare(k: Kernel, p: int, s: int, q: int, t: int, o: int, b: Byte)
    requires Inv(k) && Rooted(k, p) && Rooted(k, q) && 0 <= o < 0x1000
    requires |k.procs[p].shm| == 4 && 0 <= s < 4 && k.procs[p].shm[s].used
    requires |k.procs[q].shm| == 4 && 0 <= t < 4 && k.procs[q].shm[t].used
    requires k.procs[p].shm[s].shmId == k.procs[q].shm[t].shmId
    ensures var va, vb := 0x170_0000 + s * 0x1000 + o, 0x170_0000 + t * 0x1000 + o;
            && UserStore(k, p, va, b).Done? && IsProc(UserStore(k, p, va, b).value, q)
            && ByteAt(UserStore(k, p, va, b).value, q, vb) == Some(b)
  {
    hide Inv, UserStore, Translate, ObjectPage, ByteAt;
    var va, vb := 0x170_0000 + s * 0x1000 + o, 0x170_0000 + t * 0x1000 + o;
    MappingWritable(k, p, s, o, b);
    MappingWritable(k, q, t, o, b);
    WindowByte(s, o);
    WindowByte(t, o);
    StoreTablesOnly(k, p, va, b);
    StoreIsSeen(k, p, va, b, q, vb);
  }

  /** The second attach leaves the first mapping in place. */
  lemma BothAttached(k1: Kernel, p: int, s: int, q: int, id: int) returns (t: int)
    requires Inv(k1) && Rooted(k1, p) && Rooted(k1, q) && |k1.procs[p].shm| == 4 && 0 <= s < 4
    requires k1.procs[p].shm[s].used && k1.procs[p].shm[s].shmId == id
    requires ShmAttach(k1, q, id).Done? && ShmAttach(k1, q, id).value.1 != 0
    ensures var (k2, vb) := ShmAttach(k1, q, id).value;
            && Inv(k2) && Rooted(k2, p) && Rooted(k2, q)
            && |k2.procs[p].shm| == 4 && k2.procs[p].shm[s].used && k2.procs[p].shm[s].shmId == id
            && 0 <= t < 4 && vb == 0x170_0000 + t * 0x1000
            && |k2.procs[q].shm| == 4 && k2.procs[q].shm[t].used && k2.procs[q].shm[t].shmId == id
  {
    hide Inv, ShmAttach;
    t := AttachGives(k1, q, id);
    OtherStaysRooted(k1, q, p, id);
    AttachOnly(k1, q, id);
  }

  /** Shared memory is shared: when two processes, or one process twice, attach the same object, every byte
      that the first stores at the address it got is read by the second at its own. */
  lemma SharedBytes(k: Kernel, p: int, q: int, id: int, k1: Kernel, va: int, k2: Kernel, vb: int, o: int, b: Byte)
      returns (k3: Kernel)
    requires Inv(k) && Rooted(k, p) && Rooted(k, q) && ShmAttach(k, p, id) == Done((k1, va)) && va != 0
    requires IsProc(k1, q) && ShmAttach(k1, q, id) == Done((k2, vb)) && vb != 0
    requires 0 <= o < 0x1000
    ensures IsProc(k2, p) && UserStore(k2, p, va + o, b) == Done(k3)
    ensures IsProc(k3, q) && ByteAt(k3, q, vb + o) == Some(b)
  {
    hide Inv, ShmAttach, UserStore, ByteAt;
    var s := AttachGives(k, p, id);
    OtherStaysRooted(k, p, q, id);
    var t := BothAttached(k1, p, s, q, id);
    MappingsShare(k2, p, s, q, t, o, b);
    k3 := UserStore(k2, p, va + o, b).value;
  }

  lemma OtherStaysRooted(k: Kernel, p: int, q: int, id: int)
    requires Inv(k) && Rooted(k, p) && Rooted(k, q) && ShmAttach(k, p, id).Done?
    ensures Rooted(ShmAttach(k, p, id).value.0, q)
  {
    hide MapPage, Inv;
    if q == p {
      AttachRooted(k, p, id);
    }
  }

  lemma AttachOnly(k: Kernel, p: int, id: int)
    requires IsProc(k, p) && ShmAttach(k, p, id).Done?
    ensures OnlyProcAndObjects(k, ShmAttach(k, p, id).value.0, p)
  {
  }

  lemma StoreTablesOnly(k: Kernel, p: int, vaddr: int, b: Byte)
    requires IsProc(k, p) && UserStore(k, p, vaddr, b).Done?
    ensures |UserStore(k, p, vaddr, b).value.procs| == |k.procs|
  {
  }

  // ---- a new process ----

  /** The address space of a new process in numbers: the five device pages read and write, kernel pages
      besides execute, all of them only for the kernel; image pages are all of that for the user too; and
      nothing else is mapped. */
  lemma NewSpaceInNumbers(k: Kernel, image: seq<Byte>, vpn: int)
    requires Inv(k) && CanCreate(k, image) && 0 <= vpn < 0x10_0000
    ensures CreateProcess(k, image).Done?
    ensures var (k1, p) := CreateProcess(k, image).value;
            var leaf := Translate(k1, p, vpn);
            && (vpn in {0x10001, 0x10002, 0xc000, 0xc002, 0xc201} ==>
                  leaf == Some(Leaf(vpn, Perm(true, true, false, false))))
            && (0x80200 <= vpn < k.ram.hi / 0x1000 ==> leaf == Some(Leaf(vpn, Perm(true, true, true, false))))
            && (0x1000 <= vpn < 0x1000 + PageCount(image) ==>
                  leaf.Some? && leaf.value.perm == Perm(true, true, true, true))
            && (leaf.Some? ==>
                  || vpn in {0x10001, 0x10002, 0xc000, 0xc002, 0xc201}
                  || 0x80200 <= vpn < k.ram.hi / 0x1000
                  || 0x1000 <= vpn < 0x1000 + PageCount(image))
  {
    hide Base, Policy, ObjectsOk, ProcsOk, KeepsOthers, CreateProcess, NoMappings, Private, Walk, ImagePage, CanCreate;
    CreateFacts(k, image);
    CreateRam(k, image);
    var (k1, p) := CreateProcess(k, image).value;
    DevicesInNumbers(vpn);
    if 0x1000 <= vpn < 0x1000 + PageCount(image) {
      assert PageLoaded(k1, p, image, vpn - 0x1000);
    }
  }

  lemma CreateRam(k: Kernel, image: seq<Byte>)
    requires CreateProcess(k, image).Done?
    ensures CreateProcess(k, image).value.0.ram == k.ram
  {
  }

  lemma DevicesInNumbers(vpn: int)
    ensures DeviceVpn(vpn, 0) <==> vpn in {0x10001, 0x10002, 0xc000, 0xc002, 0xc201}
  {
    assert DEVICE_PADDRS[0] / PAGE_SIZE == 0x10001 && DEVICE_PADDRS[1] / PAGE_SIZE == 0x10002;
    assert DEVICE_PADDRS[2] / PAGE_SIZE == 0xc000 && DEVICE_PADDRS[3] / PAGE_SIZE == 0xc002;
    assert DEVICE_PADDRS[4] / PAGE_SIZE == 0xc201;
  }

  /** A new process can store into every byte of its image pages and reads back what it stored. */
  lemma ImageWritable(k: Kernel, image: seq<Byte>, off: nat, b: Byte)
    requires Inv(k) && IdleOk(k) && CanCreate(k, image) && off < PageCount(image) * 0x1000
    ensures CreateProcess(k, image).Done?
    ensures var (k1, p) := CreateProcess(k, image).value;
            && IsProc(k1, p) && UserStore(k1, p, 0x100_0000 + off, b).Done?
            && IsProc(UserStore(k1, p, 0x100_0000 + off, b).value, p)
            && ByteAt(UserStore(k1, p, 0x100_0000 + off, b).value, p, 0x100_0000 + off) == Some(b)
  {
    hide Inv, CreateProcess, UserStore, Translate, ByteAt, CanCreate, Layout, KeepsOthers, NoMappings;
    CreateFacts(k, image);
    CreateInv(k, image);
    var (k1, p) := CreateProcess(k, image).value;
    var i := off / 0x1000;
    LayoutSmall(k1, p, image);
    OffsetParts(off);
    NewSpaceInNumbers(k, image, 0x1000 + i);
    WritableStores(k1, p, 0x100_0000 + off, b);
    StoreTablesOnly(k1, p, 0x100_0000 + off, b);
    StoreIsSeen(k1, p, 0x100_0000 + off, b, p, 0x100_0000 + off);
  }

  lemma LayoutSmall(k: Kernel, p: int, image: seq<Byte>)
    requires IsProc(k, p) && Layout(k, p, image)
    ensures PageCount(image) < PROC_REGION_MAX
  {
  }

  // ---- what stops ----

  /** `map_page` and `unmap_page` panic for exactly the unaligned addresses. */
  lemma UnalignedStops(k: Kernel, p: int, vaddr: int, paddr: int, perm: Perm)
    requires IsProc(k, p)
    ensures MapPage(k, p, vaddr, paddr, perm) == Stopped(Unaligned) <==> vaddr % 0x1000 != 0 || paddr % 0x1000 != 0
    ensures UnmapPage(k, p, vaddr).Stopped? <==> vaddr % 0x1000 != 0
    ensures UnmapPage(k, p, vaddr).Stopped? ==> UnmapPage(k, p, vaddr).why == Unaligned
  {
    hide AllocRegion, HasTable, WithLeaf, WithTable, EncodePte;
    assert AllocRegion(k.heap, 1) != Stopped(Unaligned) by {
      AllocNotUnaligned(k.heap);
    }
  }

  lemma AllocNotUnaligned(h: Heap)
    ensures AllocRegion(h, 1).Stopped? ==> AllocRegion(h, 1).why == OutOfMemory
  {
  }
}
