/** What the shared-memory calls tell their callers, and how far user mode can rely on it. */
module ShmAnswers {
  import opened Machine
  import opened Heap
  import opened PageTables
  import opened KernelState
  import opened Ownership
  import opened Creation
  import opened Invariant
  import opened CreateSafe
  import opened SharedMemory
  import opened Detaching
  import opened Isolation

  ghost predicate KeyInUse(k: Kernel, key: int) {
    exists i :: 0 <= i < |k.objs| && k.objs[i].used && k.objs[i].key == key
  }

  /** `shm_get` fails exactly for a key that is not positive, or a new key when all slots are taken;
      otherwise the id it returns names a live object with that key. A key already in use changes
      nothing; a new one gets a zeroed page and an id never handed out before. */
  lemma ShmGetAnswer(k: Kernel, key: int)
    requires Inv(k) && ShmGet(k, key).Done?
    ensures var (k1, id) := ShmGet(k, key).value;
            && (id == -1 <==> key <= 0 || (!KeyInUse(k, key) && forall i :: 0 <= i < |k.objs| ==> k.objs[i].used))
            && (id == -1 || KeyInUse(k, key) ==> k1 == k)
            && (id != -1 ==> 0 <= FindById(k1.objs, id, 0) && k1.objs[FindById(k1.objs, id, 0)].key == key)
            && (id != -1 && !KeyInUse(k, key) ==>
                  && id == k.nextShmId && ObjectPage(k1.objs, id).Some? && ObjectPage(k1.objs, id).value in k1.heap.mem
                  && k1.heap.mem[ObjectPage(k1.objs, id).value] == ZeroPage())
  {
    hide Base, Policy, ProcsOk, KeepsOthers, ObjectsOk;
    ShmGetInv(k, key);
    ObjectsUnique(k);
    var (k1, id) := ShmGet(k, key).value;
    ObjectsUnique(k1);
    var i := FindByKey(k.objs, key, 0);
    if key > 0 && i >= 0 {
      ObjectsHave(k, i);
      FoundIs(k.objs, i);
    } else if key > 0 && FindObjectSlot(k.objs, 0) >= 0 {
      var s := FindObjectSlot(k.objs, 0);
      FoundIs(k1.objs, s);
      NextIdPositive(k);
      FreshObjectZero(k, AllocRegion(k.heap, 1).value.0, AllocRegion(k.heap, 1).value.1);
    }
  }

  lemma ObjectsHave(k: Kernel, i: int)
    requires ObjectsOk(k) && 0 <= i < |k.objs| && k.objs[i].used
    ensures 0 < k.objs[i].id && 0 < k.objs[i].key
  {
    assert ObjectOk(k, i);
  }

  lemma NextIdPositive(k: Kernel)
    requires ObjectsOk(k)
    ensures 0 < k.nextShmId
  {
  }

  lemma FreshObjectZero(k: Kernel, h1: Heap, n: int)
    requires Base(k) && AllocRegion(k.heap, 1) == Done((h1, n))
    ensures 0 <= n < |h1.rs| && h1.rs[n].start / PAGE_SIZE in h1.mem && h1.mem[h1.rs[n].start / PAGE_SIZE] == ZeroPage()
  {
    AllocFactsFor(k);
    AllocatedInRam(h1, k.ram, n);
  }

  /** `shm_attach` gives 0 exactly when the id is not live or all four slots are taken; otherwise the
      address it returns was unmapped before and now translates to the object's page. */
  lemma ShmAttachAnswer(k: Kernel, p: int, id: int)
    requires Inv(k) && Rooted(k, p) && ShmAttach(k, p, id).Done?
    ensures var (k1, vaddr) := ShmAttach(k, p, id).value;
            && (vaddr == 0 <==>
                  FindById(k.objs, id, 0) < 0 || forall s :: 0 <= s < |k.procs[p].shm| ==> k.procs[p].shm[s].used)
            && (vaddr == 0 ==> k1 == k)
            && (vaddr != 0 ==>
                  && IsProc(k1, p) && InShmWindow(Vpn(vaddr))
                  && Translate(k, p, Vpn(vaddr)) == None
                  && Translate(k1, p, Vpn(vaddr)) ==
                     Some(Leaf(k.objs[FindById(k.objs, id, 0)].pa / PAGE_SIZE, SHM_PERM))
                  && CountRefs(k1.procs, id) == CountRefs(k.procs, id) + 1)
  {
    hide Base, Policy, ObjectsOk, ProcsOk, MapPage, KeepsOthers, Private, CountRefs, Walk;
    var oi := FindById(k.objs, id, 0);
    var slot := FindMappingSlot(k.procs[p].shm, 0);
    if oi >= 0 && slot >= 0 {
      PolicyGives(k, p);
      SlotVpn(slot);
      AttachSteps(k, p, oi, slot);
      UnusedSlotUnmapped(k, p, slot);
      ShmAttachInv(k, p, id);
      var k1 := ShmAttach(k, p, id).value.0;
      CountOfObject(k, oi);
      CountOfObject(k1, oi);
    }
  }

  lemma CountOfObject(k: Kernel, i: int)
    requires Inv(k) && 0 <= i < |k.objs| && k.objs[i].used
    ensures k.objs[i].refcount == CountRefs(k.procs, k.objs[i].id)
  {
    assert ObjectOk(k, i);
  }

  /** A shared-memory slot that is not in use translates to nothing. */
  lemma UnusedSlotUnmapped(k: Kernel, p: int, s: int)
    requires Inv(k) && Rooted(k, p) && 0 <= s < PROC_SHM_MAX && 0 <= s < |k.procs[p].shm| && !k.procs[p].shm[s].used
    ensures Translate(k, p, SHM_VPN + s) == None
  {
    hide Base, ObjectsOk, ProcsOk, Private, Walk, DeviceVpn;
    PolicyGives(k, p);
    var vpn := SHM_VPN + s;
    if Translate(k, p, vpn).Some? {
      assert LeafOk(k, p, vpn, Translate(k, p, vpn).value);
      if DeviceVpn(vpn, 0) {
        DeviceApart(k, vpn);
      }
    }
  }

  /** After a successful `shm_detach` the address translates to nothing. */
  lemma ShmDetachAnswer(k: Kernel, p: int, vaddr: int)
    requires Inv(k) && Rooted(k, p)
    ensures ShmDetach(k, p, vaddr).Done?
    ensures var (k1, code) := ShmDetach(k, p, vaddr).value;
            && (code == 0 || code == -1) && IsProc(k1, p)
            && (code == 0 ==> InShmWindow(Vpn(vaddr)) && Translate(k1, p, Vpn(vaddr)) == None)
            && (code == -1 ==> k1 == k)
  {
    hide Inv, Shrinks, DetachSlot, Policy, Walk, ObjectPage;
    ShmDetachInv(k, p, vaddr);
    var k1 := ShmDetach(k, p, vaddr).value.0;
    var slot := FindMapping(k.procs[p].shm, vaddr, 0);
    if slot >= 0 {
      InvGives(k);
      MappedIdLive(k, p, slot);
      SlotVpn(slot);
      var oi := DetachSlotInv(k, p, slot);
      UnusedSlotUnmapped(k1, p, slot);
    }
  }

  /** A store is read back by the process that made it, and by every process that reaches the same
      physical page; all other bytes stay. */
  lemma StoreIsSeen(k: Kernel, p: int, vaddr: int, b: Byte, q: int, w: int)
    requires Inv(k) && Rooted(k, p) && Rooted(k, q) && UserStore(k, p, vaddr, b).Done?
    requires Translate(k, q, Vpn(w)).Some? && Translate(k, q, Vpn(w)).value.ppn in k.heap.mem
    ensures var k1 := UserStore(k, p, vaddr, b).value;
            ByteAt(k1, q, w) ==
            if && Translate(k, q, Vpn(w)).value.ppn == Translate(k, p, Vpn(vaddr)).value.ppn
               && w % PAGE_SIZE == vaddr % PAGE_SIZE
            then Some(b) else ByteAt(k, q, w)
  {
    hide Base, Policy, ObjectsOk, ProcsOk, Walk, Own, AgreeOn;
    UserStoreInv(k, p, vaddr, b);
    var k1 := UserStore(k, p, vaddr, b).value;
    assert Translate(k1, q, Vpn(w)) == Translate(k, q, Vpn(w));
  }
}
