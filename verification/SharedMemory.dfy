/** `shm_get` and `shm_attach` (kernel/shm.c) keep the invariant. */
module SharedMemory {
  import opened Machine
  import opened Regions
  import opened Heap
  import opened PageTables
  import opened KernelState
  import opened Ownership
  import opened Mapping
  import opened Creation
  import opened Invariant
  import opened CreateSafe

  /** Stands for "no process": `KeepsOthers(k, k1, NOBODY)` keeps every owner. */
  const NOBODY := -1

  ghost predicate UniqueIds(objs: seq<ShmObject>) {
    forall i, j :: 0 <= i < j < |objs| && objs[i].used && objs[j].used ==> objs[i].id != objs[j].id
  }

  lemma FoundIs(objs: seq<ShmObject>, i: int)
    requires 0 <= i < |objs| && objs[i].used && UniqueIds(objs)
    ensures FindById(objs, objs[i].id, 0) == i
  {
  }

  /** Replacing slot `s` by an object of another id, or by none, moves no other id. */
  lemma PageAfterUpdate(objs: seq<ShmObject>, s: int, obj: ShmObject, id: int)
    requires 0 <= s < |objs| && UniqueIds(objs) && UniqueIds(objs[s := obj])
    requires !(objs[s].used && objs[s].id == id) && !(obj.used && obj.id == id)
    ensures ObjectPage(objs[s := obj], id) == ObjectPage(objs, id)
  {
    var r := FindById(objs, id, 0);
    if r >= 0 {
      FoundIs(objs[s := obj], r);
    }
  }

  lemma ObjectsUnique(k: Kernel)
    requires ObjectsOk(k)
    ensures UniqueIds(k.objs)
    ensures forall i :: 0 <= i < |k.objs| && k.objs[i].used ==> 0 < k.objs[i].id < k.nextShmId
  {
    forall i | 0 <= i < |k.objs| && k.objs[i].used ensures 0 < k.objs[i].id < k.nextShmId {
      assert ObjectOk(k, i);
    }
  }

  // ---- regions changing hands outside any process ----

  /** Every process keeps its address space and policy when no owner is disturbed. */
  lemma AllKept(k: Kernel, k1: Kernel)
    requires Base(k) && Owned(k1) && KeepsOthers(k, k1, NOBODY)
    ensures Base(k1)
  {
    forall q ensures SpaceOk(k1, q) {
      if IsProc(k, q) {
        OthersKept(k, k1, NOBODY, q);
      }
    }
  }

  lemma PoliciesKept(k: Kernel, k1: Kernel)
    requires Base(k) && Policy(k) && KeepsOthers(k, k1, NOBODY)
    requires forall q :: IsProc(k, q) ==> SamePages(k, k1, q)
    ensures Policy(k1)
  {
    hide Base, SpacePolicy, SamePages;
    forall q | IsProc(k1, q) ensures |k1.procs[q].shm| == PROC_SHM_MAX && SpacePolicy(k1, q) {
      PolicyKept(k, k1, NOBODY, q);
    }
  }

  // ---- shm_get ----

  ghost function WithObject(k: Kernel, h1: Heap, s: int, key: int, n: int): Kernel
    requires 0 <= s < |k.objs| && 0 <= n < |h1.rs|
  {
    var obj := ShmObject(true, k.nextShmId, key, h1.rs[n].start, n, PAGE_SIZE, 0);
    k.(heap := h1, objs := k.objs[s := obj], nextShmId := k.nextShmId + 1)
  }

  lemma GetHolds(k: Kernel, h1: Heap, s: int, key: int, n: int, o: Owner, x: int)
    requires Owned(k) && 0 <= s < |k.objs| && !k.objs[s].used
    requires Allocates(k.heap, h1, n, 1) && HeapOk(h1, k.ram)
    ensures Holds(WithObject(k, h1, s, key, n), o, x) <==> Holds(k, o, x) || (o == OfObject(s) && x == n)
    ensures !Holds(k, o, n)
    ensures Holds(k, o, x) ==> h1.rs[x] == k.heap.rs[x] && !InRegion(k.heap.rs[x], FirstPage(h1.rs[n]))
  {
    AllocatedInRam(h1, k.ram, n);
    if Holds(k, o, x) {
      assert h1.rs[x] == k.heap.rs[x];
      assert Apart(h1.rs[x], h1.rs[n]);
    }
  }

  lemma GetBase(k: Kernel, h1: Heap, s: int, key: int, n: int)
    requires Base(k) && 0 <= s < |k.objs| && !k.objs[s].used
    requires Allocates(k.heap, h1, n, 1) && HeapOk(h1, k.ram)
    ensures Base(WithObject(k, h1, s, key, n))
    ensures KeepsOthers(k, WithObject(k, h1, s, key, n), NOBODY)
  {
    var k1 := WithObject(k, h1, s, key, n);
    forall o, x
      ensures Holds(k1, o, x) <==> Holds(k, o, x) || (o == OfObject(s) && x == n)
      ensures !Holds(k, o, n)
      ensures Holds(k, o, x) ==> h1.rs[x] == k.heap.rs[x] && !InRegion(k.heap.rs[x], FirstPage(h1.rs[n]))
    {
      GetHolds(k, h1, s, key, n, o, x);
    }
    assert Owned(k1);
    AllKept(k, k1);
  }

  lemma MappedIdLive(k: Kernel, q: int, s: int)
    requires Policy(k) && IsProc(k, q) && 0 <= s < |k.procs[q].shm| && k.procs[q].shm[s].used
    ensures Rooted(k, q) && s < PROC_SHM_MAX && MappingOk(k, q, s)
    ensures 0 <= FindById(k.objs, k.procs[q].shm[s].shmId, 0)
  {
    assert SpacePolicy(k, q);
  }

  lemma GetObjects(k: Kernel, h1: Heap, s: int, key: int, n: int)
    requires Policy(k) && ObjectsOk(k) && HeldAllocated(k)
    requires 0 <= s < |k.objs| && !k.objs[s].used && 0 < key && FindByKey(k.objs, key, 0) < 0
    requires 0 <= n < |h1.rs| && SameAllocatedBut(k.heap.rs, h1.rs, n) && !k.heap.rs[n].state.Allocated?
    ensures ObjectsOk(WithObject(k, h1, s, key, n))
  {
    hide Policy;
    var k1 := WithObject(k, h1, s, key, n);
    ObjectsUnique(k);
    forall q, m | 0 <= q < |k.procs| && 0 <= m < |k.procs[q].shm| && k.procs[q].shm[m].used
      ensures k.procs[q].shm[m].shmId != k.nextShmId
    {
      MappedIdLive(k, q, m);
    }
    CountRefsNone(k.procs, k.nextShmId);
    forall i | 0 <= i < |k.objs| ensures ObjectOk(k1, i) {
      assert ObjectOk(k, i);
      if k.objs[i].used {
        assert Holds(k, OfObject(i), k.objs[i].region);
      }
    }
  }

  lemma GetPages(k: Kernel, h1: Heap, s: int, key: int, n: int, q: int)
    requires Policy(k) && ObjectsOk(k) && 0 <= s < |k.objs| && !k.objs[s].used && 0 <= n < |h1.rs|
    requires IsProc(k, q)
    ensures SamePages(k, WithObject(k, h1, s, key, n), q)
  {
    hide Policy, ObjectPage;
    var k1 := WithObject(k, h1, s, key, n);
    ObjectsUnique(k);
    forall m | 0 <= m < |k.procs[q].shm| && k.procs[q].shm[m].used
      ensures ObjectPage(k1.objs, k.procs[q].shm[m].shmId) == ObjectPage(k.objs, k.procs[q].shm[m].shmId)
    {
      MappedIdLive(k, q, m);
      PageAfterUpdate(k.objs, s, k1.objs[s], k.procs[q].shm[m].shmId);
    }
  }

  lemma ProcsKept(k: Kernel, k1: Kernel)
    requires ProcsOk(k) && k1.idle == k.idle && k1.procs == k.procs
    ensures ProcsOk(k1)
  {
    forall p | IsProc(k1, p) ensures ProcOk(k1, p) {
      assert ProcOk(k, p);
    }
  }

  /** A key that is in use gives its object's id; otherwise a free slot gets a zeroed page under a
      never used id. */
  lemma ShmGetInv(k: Kernel, key: int)
    requires Inv(k) && ShmGet(k, key).Done?
    ensures Inv(ShmGet(k, key).value.0)
    ensures KeepsOthers(k, ShmGet(k, key).value.0, NOBODY)
  {
    hide Base, Policy, ObjectsOk, ProcsOk, KeepsOthers;
    var k1 := ShmGet(k, key).value.0;
    if k1 == k {
      KeepsSelf(k);
    } else {
      var s := FindObjectSlot(k.objs, 0);
      AllocFactsFor(k);
      var (h1, n) := AllocRegion(k.heap, 1).value;
      assert k1 == WithObject(k, h1, s, key, n);
      GetBase(k, h1, s, key, n);
      BaseGives(k);
      GetObjects(k, h1, s, key, n);
      forall q | IsProc(k, q) ensures SamePages(k, k1, q) {
        GetPages(k, h1, s, key, n, q);
      }
      PoliciesKept(k, k1);
      ProcsKept(k, k1);
    }
  }

  lemma KeepsSelf(k: Kernel)
    ensures KeepsOthers(k, k, NOBODY)
  {
  }

  lemma BaseGives(k: Kernel)
    requires Base(k)
    ensures Owned(k) && HeldAllocated(k)
  {
  }

  lemma AllocFactsFor(k: Kernel)
    requires Base(k) && AllocRegion(k.heap, 1).Done?
    ensures HeapOk(AllocRegion(k.heap, 1).value.0, k.ram)
    ensures Allocates(k.heap, AllocRegion(k.heap, 1).value.0, AllocRegion(k.heap, 1).value.1, 1)
  {
    AllocFacts(k.heap, k.ram, 1);
  }

  // ---- shm_attach ----

  lemma AttachedBase(k: Kernel, p: int, slot: int, oi: int)
    requires Base(k) && IsProc(k, p) && 0 <= slot < |k.procs[p].shm| && 0 <= oi < |k.objs|
    ensures Base(Attached(k, p, slot, oi)) && KeepsOthers(k, Attached(k, p, slot, oi), p)
    ensures forall ppn :: Private(Attached(k, p, slot, oi), p, ppn) <==> Private(k, p, ppn)
  {
    var k1 := Attached(k, p, slot, oi);
    assert forall o, x :: Holds(k1, o, x) <==> Holds(k, o, x);
    assert Owned(k1);
    forall q ensures SpaceOk(k1, q) {
      assert SpaceOk(k, q);
      if IsProc(k, q) {
        assert Own(k1, q) == Own(k, q);
      }
    }
    assert Own(k1, p) == Own(k, p);
  }

  /** Of the translations of `p`, only the one of shared-memory slot `slot` changes, to `leaf`. */
  ghost predicate SlotMaps(k: Kernel, k1: Kernel, p: int, slot: int, leaf: Option<Leaf>)
    requires IsProc(k, p) && IsProc(k1, p)
  {
    forall vpn :: 0 <= vpn < VPNS ==>
      Translate(k1, p, vpn) == if vpn == SHM_VPN + slot then leaf else Translate(k, p, vpn)
  }

  /** A change of one translation in the shared window, with private pages kept, keeps the leaf
      policy when the slot's flag follows. */
  lemma WindowLeaves(k: Kernel, k1: Kernel, p: int, slot: int, leaf: Option<Leaf>)
    requires IsProc(k, p) && IsProc(k1, p) && k1.ram == k.ram && 0 <= slot < PROC_SHM_MAX
    requires |k.procs[p].shm| == PROC_SHM_MAX && |k1.procs[p].shm| == PROC_SHM_MAX
    requires LeavesOk(k, p) && KernelMapped(k, p)
    requires SlotMaps(k, k1, p, slot, leaf)
    requires forall ppn :: Private(k, p, ppn) ==> Private(k1, p, ppn)
    requires forall s :: 0 <= s < PROC_SHM_MAX && s != slot ==> k1.procs[p].shm[s] == k.procs[p].shm[s]
    requires leaf.Some? ==> leaf.value.perm.u && k1.procs[p].shm[slot].used
    ensures LeavesOk(k1, p) && KernelMapped(k1, p)
  {
    hide Private, Walk, DeviceVpn;
    forall vpn | 0 <= vpn < VPNS
      ensures Translate(k1, p, vpn).Some? ==> LeafOk(k1, p, vpn, Translate(k1, p, vpn).value)
      ensures KernelVpn(k, vpn) ==> Translate(k1, p, vpn) == Some(Leaf(vpn, KERNEL_PERM))
      ensures DeviceVpn(vpn, 0) ==> Translate(k1, p, vpn) == Some(Leaf(vpn, DEVICE_PERM))
    {
      if DeviceVpn(vpn, 0) {
        DeviceApart(k, vpn);
      }
      if vpn != SHM_VPN + slot && Translate(k, p, vpn).Some? {
        assert LeafOk(k, p, vpn, Translate(k, p, vpn).value);
      }
    }
  }

  lemma SlotVpn(slot: int)
    requires 0 <= slot < PROC_SHM_MAX
    ensures Vpn(SlotVaddr(slot)) == SHM_VPN + slot && SlotVaddr(slot) % PAGE_SIZE == 0
  {
  }

  /** Dropping or adding a reference changes no object's page. */
  lemma PageAfterCount(objs: seq<ShmObject>, oi: int, count: int, id: int)
    requires 0 <= oi < |objs| && UniqueIds(objs)
    ensures ObjectPage(objs[oi := objs[oi].(refcount := count)], id) == ObjectPage(objs, id)
  {
    var objs1 := objs[oi := objs[oi].(refcount := count)];
    assert UniqueIds(objs1);
    var r := FindById(objs, id, 0);
    if r >= 0 {
      FoundIs(objs1, r);
    }
  }

  lemma ObjectAddress(k: Kernel, oi: int)
    requires Base(k) && ObjectsOk(k) && 0 <= oi < |k.objs| && k.objs[oi].used
    ensures 0 <= k.objs[oi].pa < TWO_32 && k.objs[oi].pa % PAGE_SIZE == 0
    ensures IsAllocated(k.heap.rs, k.objs[oi].region)
  {
    assert ObjectOk(k, oi);
    assert Holds(k, OfObject(oi), k.objs[oi].region);
    assert WellPlaced(k.heap.rs[k.objs[oi].region], k.ram);
  }

  /** What the caller of `shm_attach` sees when it succeeds. */
  lemma AttachSteps(k: Kernel, p: int, oi: int, slot: int)
    requires Inv(k) && Rooted(k, p) && 0 <= oi < |k.objs| && k.objs[oi].used
    requires 0 <= slot < |k.procs[p].shm| && slot < PROC_SHM_MAX
    requires MapPage(k, p, SlotVaddr(slot), k.objs[oi].pa, SHM_PERM).Done?
    ensures var k1 := MapPage(k, p, SlotVaddr(slot), k.objs[oi].pa, SHM_PERM).value;
            var k2 := Attached(k1, p, slot, oi);
            && Base(k2) && KeepsOthers(k, k2, p) && Rooted(k2, p)
            && (forall ppn :: Private(k, p, ppn) ==> Private(k2, p, ppn))
            && SlotMaps(k, k2, p, slot, Some(Leaf(k.objs[oi].pa / PAGE_SIZE, SHM_PERM)))
  {
    hide Base, KeepsOthers, MapPage, Extends, Private, Walk, Policy, ObjectsOk, ProcsOk;
    ObjectAddress(k, oi);
    SlotVpn(slot);
    MapPageRefines(k, p, SlotVaddr(slot), k.objs[oi].pa, SHM_PERM);
    var k1 := MapPage(k, p, SlotVaddr(slot), k.objs[oi].pa, SHM_PERM).value;
    ExtendsGives(k, k1, p);
    AttachedBase(k1, p, slot, oi);
    KeepsAfterExtends(k, k1, Attached(k1, p, slot, oi), p);
    forall ppn | Private(k, p, ppn) ensures Private(Attached(k1, p, slot, oi), p, ppn) {
      ExtendsKeeps(k, k1, p, ppn);
    }
  }

  lemma KeepsAfterExtends(k: Kernel, k1: Kernel, k2: Kernel, p: int)
    requires IsProc(k, p) && Extends(k, k1, p) && KeepsOthers(k1, k2, p)
    ensures KeepsOthers(k, k2, p)
  {
    KeepsTrans(k, k1, k2, p);
  }

  lemma AttachObjects(k: Kernel, k2: Kernel, p: int, slot: int, oi: int)
    requires ObjectsOk(k) && HeldAllocated(k) && KeepsOthers(k, k2, p) && IsProc(k, p)
    requires 0 <= slot < |k.procs[p].shm| && !k.procs[p].shm[slot].used && 0 <= oi < |k.objs| && k.objs[oi].used
    requires k2.procs == k.procs[p := k2.procs[p]] && |k2.procs| == |k.procs|
    requires k2.procs[p].shm == k.procs[p].shm[slot := ShmMapping(true, k.objs[oi].id, SlotVaddr(slot))]
    requires k2.objs == k.objs[oi := k.objs[oi].(refcount := k.objs[oi].refcount + 1)]
    requires k2.nextShmId == k.nextShmId
    ensures ObjectsOk(k2)
  {
    ObjectsUnique(k);
    forall i | 0 <= i < |k.objs| ensures ObjectOk(k2, i) {
      assert ObjectOk(k, i);
      if k.objs[i].used {
        assert Holds(k, OfObject(i), k.objs[i].region);
        CountRefsUpdate(k.procs, p, k2.procs[p], k.objs[i].id);
        CountMapsUpdate(k.procs[p].shm, slot, k2.procs[p].shm[slot], k.objs[i].id);
        assert i != oi ==> k.objs[i].id != k.objs[oi].id;
      }
    }
  }

  lemma AttachMappings(k: Kernel, k2: Kernel, p: int, slot: int, oi: int)
    requires ObjectsOk(k) && IsProc(k, p) && IsProc(k2, p)
    requires |k.procs[p].shm| == PROC_SHM_MAX && SpacePolicy(k, p) && Rooted(k, p)
    requires 0 <= slot < PROC_SHM_MAX && 0 <= oi < |k.objs| && k.objs[oi].used
    requires k2.procs[p].shm == k.procs[p].shm[slot := ShmMapping(true, k.objs[oi].id, SlotVaddr(slot))]
    requires k2.objs == k.objs[oi := k.objs[oi].(refcount := k.objs[oi].refcount + 1)]
    requires SlotMaps(k, k2, p, slot, Some(Leaf(k.objs[oi].pa / PAGE_SIZE, SHM_PERM)))
    ensures forall s :: 0 <= s < PROC_SHM_MAX ==> MappingOk(k2, p, s)
  {
    hide Walk, LeavesOk, KernelMapped;
    ObjectsUnique(k);
    FoundIs(k.objs, oi);
    forall s | 0 <= s < PROC_SHM_MAX ensures MappingOk(k2, p, s) {
      PageAfterCount(k.objs, oi, k.objs[oi].refcount + 1, k2.procs[p].shm[s].shmId);
      assert MappingOk(k, p, s);
    }
  }

  lemma CountPages(k: Kernel, k2: Kernel, oi: int, count: int, q: int)
    requires ObjectsOk(k) && IsProc(k, q) && 0 <= oi < |k.objs|
    requires k2.objs == k.objs[oi := k.objs[oi].(refcount := count)]
    ensures SamePages(k, k2, q)
  {
    ObjectsUnique(k);
    forall s | 0 <= s < |k.procs[q].shm| && k.procs[q].shm[s].used
      ensures ObjectPage(k2.objs, k.procs[q].shm[s].shmId) == ObjectPage(k.objs, k.procs[q].shm[s].shmId)
    {
      PageAfterCount(k.objs, oi, count, k.procs[q].shm[s].shmId);
    }
  }

  lemma PolicyGives(k: Kernel, p: int)
    requires Policy(k) && IsProc(k, p)
    ensures |k.procs[p].shm| == PROC_SHM_MAX && SpacePolicy(k, p)
    ensures Rooted(k, p) ==> LeavesOk(k, p) && KernelMapped(k, p)
  {
  }

  /** The process whose window changed, and all the others. */
  lemma PolicyAssemble(k: Kernel, k2: Kernel, p: int)
    requires Base(k) && Policy(k) && IsProc(k, p) && KeepsOthers(k, k2, p)
    requires forall q :: IsProc(k, q) && q != p ==> SamePages(k, k2, q)
    requires |k2.procs| == |k.procs| && |k2.procs[p].shm| == PROC_SHM_MAX && SpacePolicy(k2, p)
    ensures Policy(k2)
  {
    hide Base, SpacePolicy, SamePages;
    forall q | IsProc(k2, q) ensures |k2.procs[q].shm| == PROC_SHM_MAX && SpacePolicy(k2, q) {
      if q != p {
        PolicyKept(k, k2, p, q);
      }
    }
  }

  lemma ProcsSameLabels(k: Kernel, k1: Kernel)
    requires ProcsOk(k) && k1.idle == k.idle && |k1.procs| == |k.procs|
    requires forall p :: IsProc(k, p) ==>
               && k1.procs[p].state == k.procs[p].state && k1.procs[p].pid == k.procs[p].pid
               && (k1.procs[p].currentIdx == 0 <==> k.procs[p].currentIdx == 0)
    ensures ProcsOk(k1)
  {
    forall p | IsProc(k1, p) ensures ProcOk(k1, p) {
      assert ProcOk(k, p);
    }
  }

  lemma AttachInvAt(k: Kernel, p: int, oi: int, slot: int)
    requires Inv(k) && Rooted(k, p) && 0 <= oi < |k.objs| && k.objs[oi].used
    requires 0 <= slot < |k.procs[p].shm| && !k.procs[p].shm[slot].used
    requires MapPage(k, p, SlotVaddr(slot), k.objs[oi].pa, SHM_PERM).Done?
    ensures Inv(Attached(MapPage(k, p, SlotVaddr(slot), k.objs[oi].pa, SHM_PERM).value, p, slot, oi))
    ensures KeepsOthers(k, Attached(MapPage(k, p, SlotVaddr(slot), k.objs[oi].pa, SHM_PERM).value, p, slot, oi), p)
  {
    hide Base, KeepsOthers, MapPage, Policy, ObjectsOk, ProcsOk, Private, Walk, LeavesOk, KernelMapped, MappingOk,
         HeldAllocated, Owned, SamePages;
    PolicyGives(k, p);
    AttachSteps(k, p, oi, slot);
    var k1 := MapPage(k, p, SlotVaddr(slot), k.objs[oi].pa, SHM_PERM).value;
    var k2 := Attached(k1, p, slot, oi);
    BaseGives(k);
    AttachObjects(k, k2, p, slot, oi);
    AttachMappings(k, k2, p, slot, oi);
    WindowLeaves(k, k2, p, slot, Some(Leaf(k.objs[oi].pa / PAGE_SIZE, SHM_PERM)));
    forall q | IsProc(k, q) && q != p ensures SamePages(k, k2, q) {
      CountPages(k, k2, oi, k.objs[oi].refcount + 1, q);
    }
    PolicyAssemble(k, k2, p);
    ProcsSameLabels(k, k2);
  }

  /** `shm_attach` keeps the invariant and disturbs no other process. */
  lemma ShmAttachInv(k: Kernel, p: int, id: int)
    requires Inv(k) && Rooted(k, p) && ShmAttach(k, p, id).Done?
    ensures Inv(ShmAttach(k, p, id).value.0)
    ensures KeepsOthers(k, ShmAttach(k, p, id).value.0, p)
  {
    hide Base, Policy, ObjectsOk, ProcsOk, MapPage, Attached;
    var oi := FindById(k.objs, id, 0);
    var slot := FindMappingSlot(k.procs[p].shm, 0);
    if oi >= 0 && slot >= 0 {
      AttachInvAt(k, p, oi, slot);
    }
  }
}
