/** Isolation: what the invariant means for user mode, and why stores made there keep it. */
module Isolation {
  import opened Machine
  import opened Heap
  import opened PageTables
  import opened KernelState
  import opened Ownership
  import opened Mapping
  import opened Creation
  import opened Invariant
  import opened SharedMemory

  /** Process `p` can reach physical page `ppn` from user mode at virtual page `vpn`. */
  predicate UserReach(k: Kernel, p: int, vpn: int, ppn: int)
    requires IsProc(k, p)
  {
    && 0 <= vpn < VPNS
    && Translate(k, p, vpn).Some?
    && Translate(k, p, vpn).value.perm.u
    && Translate(k, p, vpn).value.ppn == ppn
  }

  /** `p` has live object `i` attached in a slot of its shared window, and `ppn` is its page. */
  ghost predicate SharedVia(k: Kernel, p: int, i: int, vpn: int, ppn: int)
    requires IsProc(k, p)
  {
    && InShmWindow(vpn) && vpn - SHM_VPN < |k.procs[p].shm|
    && 0 <= i < |k.objs| && k.objs[i].used
    && k.procs[p].shm[vpn - SHM_VPN].used && k.procs[p].shm[vpn - SHM_VPN].shmId == k.objs[i].id
    && k.objs[i].pa / PAGE_SIZE == ppn
  }

  /** A page reachable from user mode is a private page of the process or an attached object. */
  lemma ReachCases(k: Kernel, p: int, vpn: int, ppn: int) returns (i: int)
    requires Inv(k) && Rooted(k, p) && UserReach(k, p, vpn, ppn)
    ensures i >= 0 ==> SharedVia(k, p, i, vpn, ppn)
    ensures i < 0 ==> Private(k, p, ppn) && InImageWindow(vpn)
  {
    hide Base, ObjectsOk, ProcsOk, Private, Walk;
    PolicyGives(k, p);
    assert LeafOk(k, p, vpn, Translate(k, p, vpn).value);
    if InShmWindow(vpn) {
      MappedIdLive(k, p, vpn - SHM_VPN);
      i := FindById(k.objs, k.procs[p].shm[vpn - SHM_VPN].shmId, 0);
    } else {
      i := -1;
    }
  }

  /** The region behind a page reachable from user mode, and who holds it. */
  lemma ReachOwner(k: Kernel, p: int, vpn: int, ppn: int) returns (o: Owner, x: int)
    requires Inv(k) && Rooted(k, p) && UserReach(k, p, vpn, ppn)
    ensures Holds(k, o, x) && IsAllocated(k.heap.rs, x) && InRegion(k.heap.rs[x], ppn) && ppn in k.heap.mem
    ensures FirstPage(k.heap.rs[x]) == ppn
    ensures o == OfProcess(p) ==> Private(k, p, ppn)
    ensures o != OfProcess(p) ==> o.OfObject? && SharedVia(k, p, o.i, vpn, ppn)
  {
    hide Policy, ProcsOk, Private, Translate;
    var i := ReachCases(k, p, vpn, ppn);
    if i >= 0 {
      o, x := OfObject(i), k.objs[i].region;
      assert ObjectOk(k, i);
      assert Holds(k, o, x);
      AllocatedInRam(k.heap, k.ram, x);
    } else {
      o := OfProcess(p);
      PrivateOwn(k, p, ppn);
      x := OwnHas(k, p, ppn);
      assert IsAllocated(k.heap.rs, x);
    }
  }

  lemma PrivateOwn(k: Kernel, p: int, ppn: int)
    requires IsProc(k, p) && Private(k, p, ppn)
    ensures ppn in Own(k, p)
  {
  }

  /** Two processes reach the same physical page from user mode only when it is the page of a live
      shared object that both have attached. */
  lemma ProcessesIsolated(k: Kernel, p: int, v: int, q: int, w: int, ppn: int) returns (i: int)
    requires Inv(k) && Rooted(k, p) && Rooted(k, q) && p != q
    requires UserReach(k, p, v, ppn) && UserReach(k, q, w, ppn)
    ensures SharedVia(k, p, i, v, ppn) && SharedVia(k, q, i, w, ppn)
  {
    hide Policy, ObjectsOk, ProcsOk, Private, Translate, Exclusive, HeldAllocated, HeapOk, SpaceOk, SharedVia;
    var o, x := ReachOwner(k, p, v, ppn);
    var o', y := ReachOwner(k, q, w, ppn);
    PageOwnerUnique(k, o, x, o', y, ppn);
    i := o.i;
  }

  lemma TablePageOwned(k: Kernel, q: int, ppn: int)
    requires Base(k) && Rooted(k, q)
    ensures IsTablePage(k.heap.mem, k.procs[q].Root(), ppn) ==> ppn in Own(k, q)
  {
    assert SpaceOk(k, q);
    TablesInOwn(k.heap.mem, k.procs[q].Root(), Own(k, q), ppn);
  }

  /** No page table of any process, no device buffer and no page outside the free RAM is reachable
      from user mode. */
  lemma KernelUnreachable(k: Kernel, p: int, vpn: int, ppn: int)
    requires Inv(k) && Rooted(k, p) && UserReach(k, p, vpn, ppn)
    ensures k.ram.lo / PAGE_SIZE <= ppn < k.ram.hi / PAGE_SIZE
    ensures forall q :: Rooted(k, q) ==> !IsTablePage(k.heap.mem, k.procs[q].Root(), ppn)
    ensures forall x :: x in k.devices && 0 <= x < |k.heap.rs| ==> !InRegion(k.heap.rs[x], ppn)
  {
    hide Policy, ObjectsOk, ProcsOk, Translate, SharedVia, IsTablePage;
    var o, x := ReachOwner(k, p, vpn, ppn);
    AllocatedInRam(k.heap, k.ram, x);
    forall q | Rooted(k, q) ensures !IsTablePage(k.heap.mem, k.procs[q].Root(), ppn) {
      TablePageOwned(k, q, ppn);
      if ppn in Own(k, q) {
        var y := OwnHas(k, q, ppn);
        PageOwnerUnique(k, o, x, OfProcess(q), y, ppn);
      }
    }
    forall y | y in k.devices && 0 <= y < |k.heap.rs| ensures !InRegion(k.heap.rs[y], ppn) {
      if InRegion(k.heap.rs[y], ppn) {
        assert Holds(k, OfDevice, y);
        PageOwnerUnique(k, o, x, OfDevice, y, ppn);
      }
    }
  }

  // ---- stores from user mode ----

  /** A byte store by process `p` at `vaddr`; it faults unless the page is mapped U and W. */
  function UserStore(k: Kernel, p: int, vaddr: int, b: Byte): Outcome<Kernel>
    requires IsProc(k, p)
  {
    match Translate(k, p, Vpn(vaddr))
    case None => Stopped(PageFault)
    case Some(leaf) =>
      if leaf.perm.u && leaf.perm.w && leaf.ppn in k.heap.mem
      then Done(SetMem(k, k.heap.mem[leaf.ppn := k.heap.mem[leaf.ppn][vaddr % PAGE_SIZE := b]]))
      else Stopped(PageFault)
  }

  /** Writing a page that is not a page of `q` leaves its address space as it was. */
  lemma StoreElsewhere(k: Kernel, k1: Kernel, page: int, q: int)
    requires Base(k) && IsProc(k, q) && page !in Own(k, q)
    requires k1 == SetMem(k, k1.heap.mem) && DiffersAt(k.heap.mem, k1.heap.mem, page)
    ensures SpaceOk(k1, q) && Own(k1, q) == Own(k, q) && AgreeOn(k.heap.mem, k1.heap.mem, Own(k, q))
    ensures Rooted(k, q) ==> SameWalk(k.heap.mem, k1.heap.mem, k.procs[q].Root())
    ensures forall ppn :: Rooted(k, q) ==> (Private(k, q, ppn) <==> Private(k1, q, ppn))
  {
    forall ppn | ppn in Own(k, q) ensures ppn in k.heap.mem {
      var x := OwnHas(k, q, ppn);
    }
    assert Own(k1, q) == Own(k, q);
    assert SpaceOk(k, q);
    if Rooted(k, q) {
      WalkFrame(k.heap.mem, k1.heap.mem, k.procs[q].Root(), Own(k, q));
    }
  }

  /** A private page changes no translation of its owner either. */
  lemma StorePrivate(k: Kernel, k1: Kernel, page: int, p: int)
    requires Base(k) && Rooted(k, p) && Private(k, p, page)
    requires k1 == SetMem(k, k1.heap.mem) && DiffersAt(k.heap.mem, k1.heap.mem, page)
    ensures SpaceOk(k1, p) && SameWalk(k.heap.mem, k1.heap.mem, k.procs[p].Root())
    ensures forall ppn :: Private(k, p, ppn) <==> Private(k1, p, ppn)
  {
    DataStoreBase(k, p, k1.heap.mem, page);
  }

  lemma StoreOwned(k: Kernel, k1: Kernel)
    requires Owned(k) && k1 == SetMem(k, k1.heap.mem) && k1.heap.mem.Keys == k.heap.mem.Keys
    ensures Owned(k1)
  {
    assert forall o, x :: Holds(k1, o, x) <==> Holds(k, o, x);
  }

  /** The policy of `q` only depends on its translations and on which of its pages are private. */
  lemma PolicyOfSameWalk(k: Kernel, k1: Kernel, q: int)
    requires IsProc(k, q) && k1 == SetMem(k, k1.heap.mem) && |k.procs[q].shm| == PROC_SHM_MAX && SpacePolicy(k, q)
    requires Rooted(k, q) ==> SameWalk(k.heap.mem, k1.heap.mem, k.procs[q].Root())
    requires forall ppn :: Rooted(k, q) ==> (Private(k, q, ppn) <==> Private(k1, q, ppn))
    ensures SpacePolicy(k1, q)
  {
    hide Private, Walk, SpacePolicy, ObjectPage;
    PolicyDepends(k, k1, q);
  }

  lemma StoreTouches(k: Kernel, p: int, vpn: int, page: int, q: int)
    requires Inv(k) && Rooted(k, p) && UserReach(k, p, vpn, page) && IsProc(k, q)
    ensures page in Own(k, q) ==> q == p && Private(k, p, page)
  {
    hide Policy, ObjectsOk, ProcsOk, Translate, SharedVia, Private, Own;
    var o, x := ReachOwner(k, p, vpn, page);
    if page in Own(k, q) {
      var y := OwnHas(k, q, page);
      PageOwnerUnique(k, o, x, OfProcess(q), y, page);
    }
  }

  lemma StoreSpace(k: Kernel, k1: Kernel, p: int, vpn: int, page: int, q: int)
    requires Inv(k) && Rooted(k, p) && UserReach(k, p, vpn, page) && IsProc(k, q)
    requires k1 == SetMem(k, k1.heap.mem) && DiffersAt(k.heap.mem, k1.heap.mem, page)
    ensures SpaceOk(k1, q) && |k1.procs[q].shm| == PROC_SHM_MAX && SpacePolicy(k1, q)
    ensures Rooted(k, q) ==> SameWalk(k.heap.mem, k1.heap.mem, k.procs[q].Root())
    ensures q != p ==> Own(k1, q) == Own(k, q) && AgreeOn(k.heap.mem, k1.heap.mem, Own(k, q))
  {
    hide Base, Policy, ObjectsOk, ProcsOk, SpacePolicy, Own, Private, SpaceOk, UserReach;
    StoreTouches(k, p, vpn, page, q);
    PolicyGives(k, q);
    if page in Own(k, q) {
      StorePrivate(k, k1, page, p);
    } else {
      StoreElsewhere(k, k1, page, q);
    }
    PolicyOfSameWalk(k, k1, q);
  }

  /** A store from user mode keeps the invariant and every translation; it changes one page, which
      is a private page of `p` or an object that `p` has attached, and no page of any other
      process. */
  lemma UserStoreInv(k: Kernel, p: int, vaddr: int, b: Byte)
    requires Inv(k) && Rooted(k, p) && UserStore(k, p, vaddr, b).Done?
    ensures Inv(UserStore(k, p, vaddr, b).value)
    ensures UserReach(k, p, Vpn(vaddr), Translate(k, p, Vpn(vaddr)).value.ppn)
    ensures DiffersAt(k.heap.mem, UserStore(k, p, vaddr, b).value.heap.mem, Translate(k, p, Vpn(vaddr)).value.ppn)
    ensures forall q :: Rooted(k, q) ==>
              SameWalk(k.heap.mem, UserStore(k, p, vaddr, b).value.heap.mem, k.procs[q].Root())
    ensures forall q :: Rooted(k, q) && q != p ==>
              Own(UserStore(k, p, vaddr, b).value, q) == Own(k, q) &&
              AgreeOn(k.heap.mem, UserStore(k, p, vaddr, b).value.heap.mem, Own(k, q))
  {
    hide Owned, SpacePolicy, ObjectOk, ProcOk, SpaceOk, Walk, Own;
    var k1 := UserStore(k, p, vaddr, b).value;
    var page := Translate(k, p, Vpn(vaddr)).value.ppn;
    StoreOwned(k, k1);
    forall q | IsProc(k, q)
      ensures SpaceOk(k1, q) && |k1.procs[q].shm| == PROC_SHM_MAX && SpacePolicy(k1, q)
      ensures Rooted(k, q) ==> SameWalk(k.heap.mem, k1.heap.mem, k.procs[q].Root())
      ensures q != p ==> Own(k1, q) == Own(k, q) && AgreeOn(k.heap.mem, k1.heap.mem, Own(k, q))
    {
      StoreSpace(k, k1, p, Vpn(vaddr), page, q);
    }
    StoreRest(k, k1);
  }

  lemma StoreRest(k: Kernel, k1: Kernel)
    requires ObjectsOk(k) && ProcsOk(k) && k1 == SetMem(k, k1.heap.mem)
    ensures ObjectsOk(k1) && ProcsOk(k1)
    ensures forall q :: !IsProc(k, q) ==> SpaceOk(k1, q)
  {
    forall i | 0 <= i < |k.objs| ensures ObjectOk(k1, i) {
      assert ObjectOk(k, i);
    }
    forall p | IsProc(k1, p) ensures ProcOk(k1, p) {
      assert ProcOk(k, p);
    }
  }

  // ---- stores by devices ----

  /** A device writes a whole page of a region it was given; it writes nowhere else. */
  function DmaWrite(k: Kernel, x: int, ppn: int, page: Page): Kernel {
    if x in k.devices && 0 <= x < |k.heap.rs| && InRegion(k.heap.rs[x], ppn) && ppn in k.heap.mem
    then SetMem(k, k.heap.mem[ppn := page]) else k
  }

  lemma DmaSpace(k: Kernel, k1: Kernel, x: int, ppn: int, q: int)
    requires Inv(k) && Holds(k, OfDevice, x) && InRegion(k.heap.rs[x], ppn) && IsProc(k, q)
    requires k1 == SetMem(k, k1.heap.mem) && DiffersAt(k.heap.mem, k1.heap.mem, ppn)
    ensures SpaceOk(k1, q) && |k1.procs[q].shm| == PROC_SHM_MAX && SpacePolicy(k1, q)
    ensures Own(k1, q) == Own(k, q) && AgreeOn(k.heap.mem, k1.heap.mem, Own(k, q))
  {
    hide Base, Policy, ObjectsOk, ProcsOk, SpacePolicy, Private, SpaceOk;
    DmaApart(k, x, ppn, q);
    PolicyGives(k, q);
    StoreElsewhere(k, k1, ppn, q);
    PolicyOfSameWalk(k, k1, q);
  }

  lemma DmaApart(k: Kernel, x: int, ppn: int, q: int)
    requires Inv(k) && Holds(k, OfDevice, x) && InRegion(k.heap.rs[x], ppn) && IsProc(k, q)
    ensures ppn !in Own(k, q)
  {
    hide Policy, ObjectsOk, ProcsOk, SpaceOk;
    if ppn in Own(k, q) {
      var y := OwnHas(k, q, ppn);
      PageOwnerUnique(k, OfDevice, x, OfProcess(q), y, ppn);
    }
  }

  /** Whatever a device writes into its buffers, no process is affected. */
  lemma DmaWriteInv(k: Kernel, x: int, ppn: int, page: Page)
    requires Inv(k)
    ensures Inv(DmaWrite(k, x, ppn, page))
    ensures forall q :: IsProc(k, q) ==>
              Own(DmaWrite(k, x, ppn, page), q) == Own(k, q) &&
              AgreeOn(k.heap.mem, DmaWrite(k, x, ppn, page).heap.mem, Own(k, q))
  {
    hide Owned, SpacePolicy, ObjectOk, ProcOk, SpaceOk, Own;
    var k1 := DmaWrite(k, x, ppn, page);
    OwnInMemory(k);
    if k1 != k {
      assert Holds(k, OfDevice, x);
      StoreOwned(k, k1);
      forall q | IsProc(k, q)
        ensures SpaceOk(k1, q) && |k1.procs[q].shm| == PROC_SHM_MAX && SpacePolicy(k1, q)
        ensures Own(k1, q) == Own(k, q) && AgreeOn(k.heap.mem, k1.heap.mem, Own(k, q))
      {
        DmaSpace(k, k1, x, ppn, q);
      }
      StoreRest(k, k1);
    }
  }

  lemma OwnInMemory(k: Kernel)
    requires Inv(k)
    ensures forall q :: IsProc(k, q) ==> Own(k, q) <= k.heap.mem.Keys
  {
    hide Policy, ObjectsOk, ProcsOk, SpaceOk;
    forall q, ppn | IsProc(k, q) && ppn in Own(k, q) ensures ppn in k.heap.mem {
      var x := OwnHas(k, q, ppn);
    }
  }
}
