/** `shm_detach` (kernel/shm.c) keeps the invariant and frees a page with its last mapping. */
module Detaching {
  import opened Machine
  import opened Regions
  import opened Heap
  import opened PageTables
  import opened KernelState
  import opened Ownership
  import opened Mapping
  import opened Creation
  import opened Invariant
  import opened SharedMemory

  /** Nobody has `x` on record. */
  ghost predicate Unheld(k: Kernel, x: int) {
    forall o :: !Holds(k, o, x)
  }

  /** Releasing a region that nobody has on record disturbs no owner. */
  lemma UnheldRelease(k: Kernel, x: int)
    requires Base(k) && IsAllocated(k.heap.rs, x) && Unheld(k, x)
    ensures ReleasePages(k.heap, x).Done?
    ensures Base(k.(heap := ReleasePages(k.heap, x).value))
    ensures KeepsOthers(k, k.(heap := ReleasePages(k.heap, x).value), NOBODY)
    ensures SameAllocatedBut(k.heap.rs, ReleasePages(k.heap, x).value.rs, x)
    ensures !IsAllocated(ReleasePages(k.heap, x).value.rs, x)
    ensures ReleasePages(k.heap, x).value.mem == k.heap.mem
  {
    var h1 := ReleasePages(k.heap, x).value;
    var k1 := k.(heap := h1);
    ReleaseFacts(k.heap.rs, k.ram, x);
    forall o, y ensures Holds(k1, o, y) <==> Holds(k, o, y)
                ensures Holds(k, o, y) ==> y != x && h1.rs[y] == k.heap.rs[y] {
    }
    assert Owned(k1);
    AllKept(k, k1);
  }

  lemma DroppedBase(k: Kernel, p: int, slot: int)
    requires Base(k) && IsProc(k, p) && 0 <= slot < |k.procs[p].shm|
    ensures Base(DropMapping(k, p, slot)) && KeepsOthers(k, DropMapping(k, p, slot), p)
    ensures forall ppn :: Private(DropMapping(k, p, slot), p, ppn) <==> Private(k, p, ppn)
  {
    var k1 := DropMapping(k, p, slot);
    assert forall o, x :: Holds(k1, o, x) <==> Holds(k, o, x);
    assert Owned(k1);
    forall q ensures SpaceOk(k1, q) {
      assert SpaceOk(k, q);
      if IsProc(k, q) {
        assert Own(k1, q) == Own(k, q);
      }
    }
    assert Own(k1, p) == Own(k, p);
  }

  /** Unmapping slot `slot` of `p` and clearing its record. */
  ghost function Detached(k: Kernel, p: int, slot: int): Kernel
    requires IsProc(k, p) && 0 <= slot < |k.procs[p].shm| && UnmapPage(k, p, SlotVaddr(slot)).Done?
  {
    DropMapping(UnmapPage(k, p, SlotVaddr(slot)).value, p, slot)
  }

  lemma DetachSteps(k: Kernel, p: int, slot: int)
    requires Base(k) && Rooted(k, p) && 0 <= slot < |k.procs[p].shm| && slot < PROC_SHM_MAX
    ensures UnmapPage(k, p, SlotVaddr(slot)).Done?
    ensures Base(Detached(k, p, slot)) && KeepsOthers(k, Detached(k, p, slot), p) && Rooted(Detached(k, p, slot), p)
    ensures forall ppn :: Private(k, p, ppn) ==> Private(Detached(k, p, slot), p, ppn)
    ensures SlotMaps(k, Detached(k, p, slot), p, slot, None)
  {
    hide Base, KeepsOthers, Extends, Private, Walk;
    SlotVpn(slot);
    UnmapPageRefines(k, p, SlotVaddr(slot));
    var k1 := UnmapPage(k, p, SlotVaddr(slot)).value;
    ExtendsGives(k, k1, p);
    DroppedBase(k1, p, slot);
    KeepsAfterExtends(k, k1, Detached(k, p, slot), p);
    forall ppn | Private(k, p, ppn) ensures Private(Detached(k, p, slot), p, ppn) {
      ExtendsKeeps(k, k1, p, ppn);
    }
  }

  lemma DetachMappings(k: Kernel, k2: Kernel, p: int, slot: int)
    requires IsProc(k, p) && IsProc(k2, p) && k2.objs == k.objs
    requires |k.procs[p].shm| == PROC_SHM_MAX && SpacePolicy(k, p) && Rooted(k, p) && 0 <= slot < PROC_SHM_MAX
    requires k2.procs[p].shm == k.procs[p].shm[slot := NO_MAPPING]
    requires SlotMaps(k, k2, p, slot, None)
    ensures forall s :: 0 <= s < PROC_SHM_MAX ==> MappingOk(k2, p, s)
  {
    hide Walk, LeavesOk, KernelMapped, ObjectPage;
    forall s | 0 <= s < PROC_SHM_MAX ensures MappingOk(k2, p, s) {
      assert MappingOk(k, p, s);
    }
  }

  /** Everything but the reference count of the detached object is in order. */
  lemma DetachPolicy(k: Kernel, p: int, slot: int)
    requires Base(k) && Policy(k) && Rooted(k, p) && 0 <= slot < |k.procs[p].shm|
    ensures UnmapPage(k, p, SlotVaddr(slot)).Done?
    ensures Base(Detached(k, p, slot)) && KeepsOthers(k, Detached(k, p, slot), p)
    ensures Policy(Detached(k, p, slot)) && Rooted(Detached(k, p, slot), p)
    ensures Detached(k, p, slot) == SetProc(k, p, k.procs[p].(shm := k.procs[p].shm[slot := NO_MAPPING]))
                                    .(heap := Detached(k, p, slot).heap)
    ensures Detached(k, p, slot).heap.rs == k.heap.rs
  {
    hide Base, KeepsOthers, Policy, Private, Walk, LeavesOk, KernelMapped, MappingOk, SamePages;
    PolicyGives(k, p);
    DetachSteps(k, p, slot);
    var k2 := Detached(k, p, slot);
    DetachMappings(k, k2, p, slot);
    WindowLeaves(k, k2, p, slot, None);
    forall q | IsProc(k, q) && q != p ensures SamePages(k, k2, q) {
      SameObjects(k, k2, q);
    }
    PolicyAssemble(k, k2, p);
  }

  lemma SameObjects(k: Kernel, k1: Kernel, q: int)
    requires IsProc(k, q) && k1.objs == k.objs
    ensures SamePages(k, k1, q)
  {
  }

  /** The reference counts after the mapping is gone and before the object is told. */
  lemma DetachCounts(k: Kernel, p: int, slot: int, oi: int, i: int)
    requires ObjectsOk(k) && IsProc(k, p) && 0 <= slot < |k.procs[p].shm| && k.procs[p].shm[slot].used
    requires 0 <= oi < |k.objs| && k.objs[oi].used && k.objs[oi].id == k.procs[p].shm[slot].shmId
    requires 0 <= i < |k.objs| && k.objs[i].used
    ensures CountRefs(k.procs[p := k.procs[p].(shm := k.procs[p].shm[slot := NO_MAPPING])], k.objs[i].id) ==
            k.objs[i].refcount - if i == oi then 1 else 0
  {
    ObjectsUnique(k);
    assert ObjectOk(k, i);
    CountRefsUpdate(k.procs, p, k.procs[p].(shm := k.procs[p].shm[slot := NO_MAPPING]), k.objs[i].id);
    CountMapsUpdate(k.procs[p].shm, slot, NO_MAPPING, k.objs[i].id);
    assert i != oi ==> k.objs[i].id != k.objs[oi].id;
  }

  lemma DropObjects(k: Kernel, k3: Kernel, p: int, slot: int, oi: int)
    requires ObjectsOk(k) && HeldAllocated(k) && IsProc(k, p) && 0 <= slot < |k.procs[p].shm|
    requires k.procs[p].shm[slot].used
    requires 0 <= oi < |k.objs| && k.objs[oi].used && k.objs[oi].id == k.procs[p].shm[slot].shmId
    requires k3.procs == k.procs[p := k.procs[p].(shm := k.procs[p].shm[slot := NO_MAPPING])]
    requires k3.nextShmId == k.nextShmId && |k3.objs| == |k.objs|
    requires k3.objs == k.objs[oi := k3.objs[oi]]
    requires k3.objs[oi] == NO_OBJECT || k3.objs[oi] == k.objs[oi].(refcount := k.objs[oi].refcount - 1)
    requires |k3.heap.rs| == |k.heap.rs|
    requires forall i :: 0 <= i < |k.objs| && k3.objs[i].used && 0 <= k.objs[i].region < |k.heap.rs| ==>
               k3.heap.rs[k.objs[i].region] == k.heap.rs[k.objs[i].region]
    ensures ObjectsOk(k3)
  {
    forall i | 0 <= i < |k.objs| ensures ObjectOk(k3, i) {
      assert ObjectOk(k, i);
      if k.objs[i].used {
        DetachCounts(k, p, slot, oi, i);
      }
    }
  }

  /** With no mapping left that names it, the object goes and its region is released. */
  lemma LastReference(k: Kernel, oi: int)
    requires Base(k) && Policy(k) && UniqueIds(k.objs) && 0 <= oi < |k.objs| && k.objs[oi].used
    requires CountRefs(k.procs, k.objs[oi].id) == 0
    ensures ReleasePages(k.heap, k.objs[oi].region).Done?
    ensures var k1 := k.(heap := ReleasePages(k.heap, k.objs[oi].region).value, objs := k.objs[oi := NO_OBJECT]);
            && Base(k1) && Policy(k1) && KeepsOthers(k.(objs := k.objs[oi := NO_OBJECT]), k1, NOBODY)
            && SameAllocatedBut(k.heap.rs, k1.heap.rs, k.objs[oi].region)
            && !IsAllocated(k1.heap.rs, k.objs[oi].region)
            && k1.heap.mem == k.heap.mem
  {
    hide Base, Policy, SamePages, KeepsOthers;
    var x := k.objs[oi].region;
    var kc := k.(objs := k.objs[oi := NO_OBJECT]);
    ForgetObject(k, oi);
    UnheldRelease(kc, x);
    var k1 := kc.(heap := ReleasePages(k.heap, x).value);
    forall q | IsProc(kc, q) ensures SamePages(kc, k1, q) {
      SameObjects(kc, k1, q);
    }
    ForgetPolicy(k, oi);
    PoliciesKept(kc, k1);
  }

  lemma ForgetObject(k: Kernel, oi: int)
    requires Base(k) && 0 <= oi < |k.objs| && k.objs[oi].used
    ensures Base(k.(objs := k.objs[oi := NO_OBJECT]))
    ensures IsAllocated(k.heap.rs, k.objs[oi].region) && Unheld(k.(objs := k.objs[oi := NO_OBJECT]), k.objs[oi].region)
  {
    var kc := k.(objs := k.objs[oi := NO_OBJECT]);
    assert Holds(k, OfObject(oi), k.objs[oi].region);
    forall o, x ensures Holds(kc, o, x) <==> Holds(k, o, x) && o != OfObject(oi) {
    }
    assert Owned(kc);
    forall q ensures SpaceOk(kc, q) {
      assert SpaceOk(k, q);
      if IsProc(k, q) {
        assert Own(kc, q) == Own(k, q);
      }
    }
  }

  lemma ForgetPolicy(k: Kernel, oi: int)
    requires Policy(k) && UniqueIds(k.objs) && 0 <= oi < |k.objs| && k.objs[oi].used
    requires CountRefs(k.procs, k.objs[oi].id) == 0
    ensures Policy(k.(objs := k.objs[oi := NO_OBJECT]))
  {
    hide Walk, LeavesOk, KernelMapped, ObjectPage, CountRefs;
    var kc := k.(objs := k.objs[oi := NO_OBJECT]);
    forall q | IsProc(kc, q) ensures |kc.procs[q].shm| == PROC_SHM_MAX && SpacePolicy(kc, q) {
      assert SpacePolicy(k, q);
      if Rooted(k, q) {
        ForgetLeaves(k, kc, q);
        forall s | 0 <= s < PROC_SHM_MAX ensures MappingOk(kc, q, s) {
          assert MappingOk(k, q, s);
          ForgetMapping(k, oi, q, s);
        }
      }
    }
  }

  lemma ForgetMapping(k: Kernel, oi: int, q: int, s: int)
    requires IsProc(k, q) && 0 <= s < |k.procs[q].shm| && UniqueIds(k.objs) && 0 <= oi < |k.objs| && k.objs[oi].used
    requires CountRefs(k.procs, k.objs[oi].id) == 0
    ensures k.procs[q].shm[s].used ==>
              var id := k.procs[q].shm[s].shmId; ObjectPage(k.objs[oi := NO_OBJECT], id) == ObjectPage(k.objs, id)
  {
    if k.procs[q].shm[s].used {
      var id := k.procs[q].shm[s].shmId;
      CountRefsSome(k.procs, q, s, id);
      assert UniqueIds(k.objs[oi := NO_OBJECT]);
      PageAfterUpdate(k.objs, oi, NO_OBJECT, id);
    }
  }

  lemma ForgetLeaves(k: Kernel, kc: Kernel, q: int)
    requires IsProc(k, q) && kc == k.(objs := kc.objs) && LeavesOk(k, q) && KernelMapped(k, q)
    ensures LeavesOk(kc, q) && KernelMapped(kc, q)
  {
    hide Walk, DeviceVpn;
    assert Own(kc, q) == Own(k, q);
    forall vpn | 0 <= vpn < VPNS && Translate(kc, q, vpn).Some?
      ensures LeafOk(kc, q, vpn, Translate(kc, q, vpn).value)
    {
      assert LeafOk(k, q, vpn, Translate(k, q, vpn).value);
    }
  }

  /** Owners other than `p` that still hold a region in `k1` held it in `k`, in the same place and
      with the same contents; other processes and the devices lose nothing. */
  ghost predicate Shrinks(k: Kernel, k1: Kernel, p: int) {
    && |k1.procs| == |k.procs|
    && k1.ram == k.ram && k1.devices == k.devices && k1.current == k.current && k1.idle == k.idle
    && (forall q :: IsProc(k, q) && q != p ==> k1.procs[q] == k.procs[q])
    && (forall o, x :: Holds(k1, o, x) && 0 <= x < |k1.heap.rs| ==>
          Holds(k, o, x) && 0 <= x < |k.heap.rs| && k1.heap.rs[x] == k.heap.rs[x])
    && k1.heap.mem.Keys == k.heap.mem.Keys
    && (forall o, x, ppn ::
          Holds(k1, o, x) && o != OfProcess(p) && 0 <= x < |k1.heap.rs| && InRegion(k1.heap.rs[x], ppn) ==>
          (ppn in k.heap.mem ==> k1.heap.mem[ppn] == k.heap.mem[ppn]))
  }

  lemma ShrinksTrans(k: Kernel, k1: Kernel, k2: Kernel, p: int)
    requires Shrinks(k, k1, p) && Shrinks(k1, k2, p)
    ensures Shrinks(k, k2, p)
  {
  }

  /** The tables after `shm_detach` of `slot`, which names object `oi`. */
  ghost predicate DetachEffect(k: Kernel, k1: Kernel, p: int, slot: int, oi: int)
    requires IsProc(k, p) && 0 <= slot < |k.procs[p].shm| && 0 <= oi < |k.objs|
  {
    && k1 == k.(heap := k1.heap, objs := k1.objs,
                procs := k.procs[p := k.procs[p].(shm := k.procs[p].shm[slot := NO_MAPPING])])
    && (if k.objs[oi].refcount <= 1 then
          && k1.objs == k.objs[oi := NO_OBJECT]
          && SameAllocatedBut(k.heap.rs, k1.heap.rs, k.objs[oi].region)
          && !IsAllocated(k1.heap.rs, k.objs[oi].region)
        else
          && k1.objs == k.objs[oi := k.objs[oi].(refcount := k.objs[oi].refcount - 1)]
          && k1.heap.rs == k.heap.rs)
  }

  lemma DetachLast(k: Kernel, p: int, slot: int, oi: int)
    requires Inv(k) && Rooted(k, p) && 0 <= slot < |k.procs[p].shm| && k.procs[p].shm[slot].used
    requires oi == FindById(k.objs, k.procs[p].shm[slot].shmId, 0) && 0 <= oi && k.objs[oi].refcount <= 1
    requires k.procs[p].shm[slot].vaddr == SlotVaddr(slot)
    ensures DetachSlot(k, p, slot).Done?
    ensures Inv(DetachSlot(k, p, slot).value) && Rooted(DetachSlot(k, p, slot).value, p)
    ensures DetachEffect(k, DetachSlot(k, p, slot).value, p, slot, oi)
    ensures Shrinks(k, DetachSlot(k, p, slot).value, p)
  {
    hide Base, Policy, ObjectsOk, ProcsOk, KeepsOthers, CountRefs, HeldAllocated, Owned, UnmapPage, SameAllocatedBut;
    DetachPolicy(k, p, slot);
    var k2 := Detached(k, p, slot);
    ObjectsUnique(k);
    DetachCounts(k, p, slot, oi, oi);
    LastReference(k2, oi);
    var k3 := k2.(heap := ReleasePages(k2.heap, k.objs[oi].region).value, objs := k2.objs[oi := NO_OBJECT]);
    assert DetachSlot(k, p, slot) == Done(k3);
    BaseGives(k);
    ObjectRegionsKept(k, k3, oi);
    DropObjects(k, k3, p, slot, oi);
    ProcsSameLabels(k, k3);
    DetachShrinks(k, k2, k3, p, oi);
  }

  lemma ObjectRegionsKept(k: Kernel, k3: Kernel, oi: int)
    requires Owned(k) && 0 <= oi < |k.objs| && k.objs[oi].used && k3.objs == k.objs[oi := NO_OBJECT]
    requires SameAllocatedBut(k.heap.rs, k3.heap.rs, k.objs[oi].region)
    ensures |k3.heap.rs| == |k.heap.rs|
    ensures forall i :: 0 <= i < |k.objs| && k3.objs[i].used && 0 <= k.objs[i].region < |k.heap.rs| ==>
              k3.heap.rs[k.objs[i].region] == k.heap.rs[k.objs[i].region]
  {
    forall i | 0 <= i < |k.objs| && k3.objs[i].used && 0 <= k.objs[i].region < |k.heap.rs|
      ensures k3.heap.rs[k.objs[i].region] == k.heap.rs[k.objs[i].region]
    {
      assert Holds(k, OfObject(i), k.objs[i].region) && Holds(k, OfObject(oi), k.objs[oi].region);
    }
  }

  lemma DetachShrinks(k: Kernel, k2: Kernel, k3: Kernel, p: int, oi: int)
    requires Base(k) && Base(k3) && IsProc(k, p) && KeepsOthers(k, k2, p) && 0 <= oi < |k.objs| && k.objs[oi].used
    requires k2 == k.(heap := k2.heap, procs := k.procs[p := k2.procs[p]]) && |k2.procs| == |k.procs|
    requires k2.procs[p] == k.procs[p].(shm := k2.procs[p].shm) && k2.heap.rs == k.heap.rs
    requires k3 == k2.(heap := k3.heap, objs := k.objs[oi := NO_OBJECT]) && k3.heap.mem == k2.heap.mem
    requires SameAllocatedBut(k.heap.rs, k3.heap.rs, k.objs[oi].region)
    ensures Shrinks(k, k3, p)
  {
    forall o, x | Holds(k3, o, x)
      ensures Holds(k, o, x) && IsAllocated(k.heap.rs, x) && k3.heap.rs[x] == k.heap.rs[x]
    {
      assert Holds(k, o, x);
      assert Holds(k, OfObject(oi), k.objs[oi].region);
    }
  }

  lemma DetachNotLast(k: Kernel, p: int, slot: int, oi: int)
    requires Inv(k) && Rooted(k, p) && 0 <= slot < |k.procs[p].shm| && k.procs[p].shm[slot].used
    requires oi == FindById(k.objs, k.procs[p].shm[slot].shmId, 0) && 0 <= oi && k.objs[oi].refcount > 1
    requires k.procs[p].shm[slot].vaddr == SlotVaddr(slot)
    ensures DetachSlot(k, p, slot).Done?
    ensures Inv(DetachSlot(k, p, slot).value) && Rooted(DetachSlot(k, p, slot).value, p)
    ensures DetachEffect(k, DetachSlot(k, p, slot).value, p, slot, oi)
    ensures Shrinks(k, DetachSlot(k, p, slot).value, p)
  {
    hide Base, Policy, ObjectsOk, ProcsOk, KeepsOthers, CountRefs, HeldAllocated, Owned, UnmapPage;
    DetachPolicy(k, p, slot);
    var k2 := Detached(k, p, slot);
    var obj := k.objs[oi].(refcount := k.objs[oi].refcount - 1);
    var k3 := k2.(objs := k2.objs[oi := obj]);
    assert DetachSlot(k, p, slot) == Done(k3);
    BaseGives(k);
    DropObjects(k, k3, p, slot, oi);
    ProcsSameLabels(k, k3);
    RecountKeeps(k, k2, k3, p, oi, obj);
    ObjectsUnique(k);
    RecountPolicy(k2, k3, oi, obj.refcount);
  }

  lemma RecountKeeps(k: Kernel, k2: Kernel, k3: Kernel, p: int, oi: int, obj: ShmObject)
    requires Base(k) && Base(k2) && IsProc(k, p) && KeepsOthers(k, k2, p) && 0 <= oi < |k.objs| && k.objs[oi].used
    requires k2 == k.(heap := k2.heap, procs := k.procs[p := k2.procs[p]]) && |k2.procs| == |k.procs|
    requires k2.procs[p] == k.procs[p].(shm := k2.procs[p].shm) && k2.heap.rs == k.heap.rs
    requires k3 == k2.(objs := k2.objs[oi := obj]) && obj == k.objs[oi].(refcount := obj.refcount)
    ensures Base(k3) && Shrinks(k, k3, p)
  {
    assert forall o, x :: Holds(k3, o, x) <==> Holds(k2, o, x);
    assert forall o, x :: Holds(k2, o, x) <==> Holds(k, o, x);
    assert Owned(k3);
    forall q ensures SpaceOk(k3, q) {
      assert SpaceOk(k2, q);
      if IsProc(k, q) {
        assert Own(k3, q) == Own(k2, q);
      }
    }
  }

  lemma RecountPolicy(k: Kernel, k1: Kernel, oi: int, count: int)
    requires Policy(k) && UniqueIds(k.objs) && 0 <= oi < |k.objs|
    requires k1 == k.(objs := k.objs[oi := k.objs[oi].(refcount := count)])
    ensures Policy(k1)
  {
    hide Walk, LeavesOk, KernelMapped, ObjectPage;
    forall q | IsProc(k1, q) ensures |k1.procs[q].shm| == PROC_SHM_MAX && SpacePolicy(k1, q) {
      assert SpacePolicy(k, q);
      if Rooted(k, q) {
        ForgetLeaves(k, k1, q);
        forall s | 0 <= s < PROC_SHM_MAX ensures MappingOk(k1, q, s) {
          assert MappingOk(k, q, s);
          PageAfterCount(k.objs, oi, count, k.procs[q].shm[s].shmId);
        }
      }
    }
  }

  /** A mapping in use can always be detached: no PANIC is reached, the invariant is kept, and the
      object goes with its last mapping. */
  lemma DetachSlotInv(k: Kernel, p: int, slot: int) returns (oi: int)
    requires Inv(k) && Rooted(k, p) && 0 <= slot < |k.procs[p].shm| && k.procs[p].shm[slot].used
    ensures oi == FindById(k.objs, k.procs[p].shm[slot].shmId, 0) && 0 <= oi
    ensures DetachSlot(k, p, slot).Done?
    ensures Inv(DetachSlot(k, p, slot).value) && Rooted(DetachSlot(k, p, slot).value, p)
    ensures DetachEffect(k, DetachSlot(k, p, slot).value, p, slot, oi)
    ensures Shrinks(k, DetachSlot(k, p, slot).value, p)
  {
    hide Inv, DetachSlot, DetachEffect, Shrinks, Policy, Translate;
    oi := FindById(k.objs, k.procs[p].shm[slot].shmId, 0);
    InvGives(k);
    MappedIdLive(k, p, slot);
    if k.objs[oi].refcount <= 1 {
      DetachLast(k, p, slot, oi);
    } else {
      DetachNotLast(k, p, slot, oi);
    }
  }

  lemma InvGives(k: Kernel)
    requires Inv(k)
    ensures Base(k) && Policy(k) && ObjectsOk(k) && ProcsOk(k)
  {
  }

  /** `shm_detach` keeps the invariant and never stops; -1 exactly when nothing is mapped there. */
  lemma ShmDetachInv(k: Kernel, p: int, vaddr: int)
    requires Inv(k) && Rooted(k, p)
    ensures ShmDetach(k, p, vaddr).Done?
    ensures Inv(ShmDetach(k, p, vaddr).value.0) && Rooted(ShmDetach(k, p, vaddr).value.0, p)
    ensures Shrinks(k, ShmDetach(k, p, vaddr).value.0, p)
    ensures ShmDetach(k, p, vaddr).value.1 == -1 <==>
            forall s :: 0 <= s < |k.procs[p].shm| && k.procs[p].shm[s].used ==> k.procs[p].shm[s].vaddr != vaddr
  {
    hide Inv, DetachSlot, DetachEffect, Shrinks;
    var slot := FindMapping(k.procs[p].shm, vaddr, 0);
    if slot >= 0 {
      var oi := DetachSlotInv(k, p, slot);
    } else {
      ShrinksSelf(k, p);
    }
  }

  lemma ShrinksSelf(k: Kernel, p: int)
    ensures Shrinks(k, k, p)
  {
  }
}
