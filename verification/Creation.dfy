/** `create_process` (kernel/process.c): the address space it builds. */
module Creation {
  import opened Machine
  import opened Heap
  import opened PageTables
  import opened KernelState
  import opened Ownership
  import opened Mapping

  /** The translation of virtual page `vpn` in process `p`. */
  function Translate(k: Kernel, p: int, vpn: int): Option<Leaf>
    requires IsProc(k, p) && 0 <= vpn < VPNS
  {
    Walk(k.heap.mem, k.procs[p].Root(), vpn)
  }

  // ---- the root ----

  lemma ClearedOwned(k: Kernel, p: int)
    requires Base(k) && IsProc(k, p) && k.procs[p].currentIdx == 0
    ensures Owned(Cleared(k, p)) && KeepsOthers(k, Cleared(k, p), p)
    ensures forall q :: q != p ==> SpaceOk(Cleared(k, p), q)
  {
    var k1 := Cleared(k, p);
    assert forall o, x :: Holds(k1, o, x) <==> Holds(k, o, x);
    forall q | q != p ensures SpaceOk(k1, q) {
      if IsProc(k, q) {
        OthersKept(k, k1, p, q);
      }
    }
  }

  ghost function Cleared(k: Kernel, p: int): Kernel
    requires IsProc(k, p)
  {
    SetProc(k, p, k.procs[p].(currentIdx := 0, regions := NoRegions(), shm := NoMappings()))
  }

  lemma EmptyTables(mem: Memory, root: int)
    requires root in mem && mem[root] == ZeroPage()
    ensures Tables(mem, root, {root})
    ensures forall vpn :: 0 <= vpn < VPNS ==> Walk(mem, root, vpn) == None
  {
    forall v | 0 <= v < WORDS_PER_PAGE ensures Load(mem, root, v) == 0 {
      ZeroWord(v);
    }
  }

  /** A cleared slot gets a root table that translates nothing; nobody else notices. */
  lemma NewRootFacts(k: Kernel, p: int)
    requires Base(k) && IsProc(k, p) && k.procs[p].currentIdx == 0
    requires NewRoot(k, p).Done?
    ensures Base(NewRoot(k, p).value) && Rooted(NewRoot(k, p).value, p)
    ensures KeepsOthers(k, NewRoot(k, p).value, p)
    ensures NewRoot(k, p).value.procs[p].shm == NoMappings()
    ensures forall vpn :: 0 <= vpn < VPNS ==> Translate(NewRoot(k, p).value, p, vpn) == None
  {
    var kc := Cleared(k, p);
    ClearedOwned(k, p);
    var n := AllocFresh(kc, p);
    var k1, t := AllocPageFor(kc, p).value.0, AllocPageFor(kc, p).value.1;
    FreshOwned(kc, k1, p, n, t);
    FreshKeeps(kc, k1, p, n, t);
    FreshPage(kc, k1, p, n, t);
    EmptyTables(k1.heap.mem, t);
    RootedSpace(kc, k1, p, n, t);
    RootKeeps(k, kc, k1, p, t);
  }

  lemma RootedSpace(kc: Kernel, k1: Kernel, p: int, n: int, t: int)
    requires Owned(kc) && IsProc(kc, p) && kc.procs[p].currentIdx == 0
    requires Fresh(kc, k1, p, n, t) && HeapOk(k1.heap, kc.ram)
    ensures Own(SetProc(k1, p, k1.procs[p].(pageTable := t * PAGE_SIZE)), p) == {t}
  {
    FreshOwn(kc, k1, p, n, t);
    assert Own(kc, p) == {};
    assert Own(SetProc(k1, p, k1.procs[p].(pageTable := t * PAGE_SIZE)), p) == Own(k1, p);
  }

  lemma RootKeeps(k: Kernel, kc: Kernel, k1: Kernel, p: int, t: int)
    requires Base(k) && IsProc(k, p) && k.procs[p].currentIdx == 0 && kc == Cleared(k, p)
    requires OnlySpace(kc, k1, p) && Owned(k1) && KeepsOthers(kc, k1, p) && KeepsOthers(k, kc, p)
    requires t in k1.heap.mem && Tables(k1.heap.mem, t, {t})
    requires Own(SetProc(k1, p, k1.procs[p].(pageTable := t * PAGE_SIZE)), p) == {t}
    ensures Base(SetProc(k1, p, k1.procs[p].(pageTable := t * PAGE_SIZE)))
    ensures KeepsOthers(k, SetProc(k1, p, k1.procs[p].(pageTable := t * PAGE_SIZE)), p)
  {
    var k2 := SetProc(k1, p, k1.procs[p].(pageTable := t * PAGE_SIZE));
    KeepsTrans(k, kc, k1, p);
    assert forall o, x :: Holds(k2, o, x) <==> Holds(k1, o, x);
    forall q ensures SpaceOk(k2, q) {
      if IsProc(k, q) && q != p {
        OthersKept(k, k2, p, q);
      }
    }
  }

  // ---- the kernel's identity maps ----

  predicate InRange(vpn: int, pa: int, hi: int) {
    pa / PAGE_SIZE <= vpn < hi / PAGE_SIZE
  }

  /** Every page of `[pa, hi)` maps to itself without the U bit; nothing else changes. */
  lemma {:induction false} MapRangeFacts(k: Kernel, p: int, pa: int, hi: int)
    requires Base(k) && Rooted(k, p)
    requires 0 <= pa && pa % PAGE_SIZE == 0 && hi % PAGE_SIZE == 0 && hi < TWO_32
    requires MapRange(k, p, pa, hi).Done?
    ensures Extends(k, MapRange(k, p, pa, hi).value, p)
    ensures forall vpn :: 0 <= vpn < VPNS ==>
              Translate(MapRange(k, p, pa, hi).value, p, vpn) ==
              if InRange(vpn, pa, hi) then Some(Leaf(vpn, KERNEL_PERM)) else Translate(k, p, vpn)
    decreases hi - pa
  {
    hide Extends, Base, MapPage;
    if pa >= hi {
      ExtendsRefl(k, p);
    } else {
      MapPageRefines(k, p, pa, pa, KERNEL_PERM);
      var k1 := MapPage(k, p, pa, pa, KERNEL_PERM).value;
      ExtendsGives(k, k1, p);
      assert Vpn(pa) == pa / PAGE_SIZE;
      MapRangeFacts(k1, p, pa + PAGE_SIZE, hi);
      ExtendsTrans(k, k1, MapRange(k, p, pa, hi).value, p);
      assert forall vpn :: InRange(vpn, pa, hi) <==> vpn == pa / PAGE_SIZE || InRange(vpn, pa + PAGE_SIZE, hi);
    }
  }

  /** `vpn` is one of the device pages from the `i`-th on. */
  ghost predicate DeviceVpn(vpn: int, i: nat) {
    exists j :: i <= j < |DEVICE_PADDRS| && DEVICE_PADDRS[j] / PAGE_SIZE == vpn
  }

  lemma {:induction false} MapDevicesFacts(k: Kernel, p: int, i: nat)
    requires Base(k) && Rooted(k, p) && i <= |DEVICE_PADDRS|
    requires MapDevices(k, p, i).Done?
    ensures Extends(k, MapDevices(k, p, i).value, p)
    ensures forall vpn :: 0 <= vpn < VPNS ==>
              Translate(MapDevices(k, p, i).value, p, vpn) ==
              if DeviceVpn(vpn, i) then Some(Leaf(vpn, DEVICE_PERM)) else Translate(k, p, vpn)
    decreases |DEVICE_PADDRS| - i
  {
    hide Extends, Base, MapPage;
    if i == |DEVICE_PADDRS| {
      ExtendsRefl(k, p);
    } else {
      var pa := DEVICE_PADDRS[i];
      MapPageRefines(k, p, pa, pa, DEVICE_PERM);
      var k1 := MapPage(k, p, pa, pa, DEVICE_PERM).value;
      ExtendsGives(k, k1, p);
      assert Vpn(pa) == pa / PAGE_SIZE;
      MapDevicesFacts(k1, p, i + 1);
      ExtendsTrans(k, k1, MapDevices(k, p, i).value, p);
      forall vpn ensures DeviceVpn(vpn, i) <==> vpn == pa / PAGE_SIZE || DeviceVpn(vpn, i + 1) {
      }
    }
  }

  // ---- the image ----

  /** Page `i` of the image is found, byte for byte and zero padded, at `USER_VPN + i`, in a page of
      `p` that holds nothing else. */
  ghost predicate PageLoaded(k: Kernel, p: int, image: seq<Byte>, i: nat)
    requires IsProc(k, p) && i * PAGE_SIZE < |image| && USER_VPN + i < VPNS
  {
    match Translate(k, p, USER_VPN + i)
    case None => false
    case Some(leaf) =>
      && leaf.perm == IMAGE_PERM
      && Private(k, p, leaf.ppn)
      && leaf.ppn in k.heap.mem && k.heap.mem[leaf.ppn] == ImagePage(image, i * PAGE_SIZE)
  }

  ghost predicate LoadedUpTo(k: Kernel, p: int, image: seq<Byte>, n: nat)
    requires IsProc(k, p)
  {
    forall i: nat :: i < n && i * PAGE_SIZE < |image| ==> USER_VPN + i < VPNS && PageLoaded(k, p, image, i)
  }

  /** Recording a page and filling it. */
  lemma FillFacts(k: Kernel, p: int, page: Page) returns (t: int)
    requires Base(k) && Rooted(k, p) && AllocPageFor(k, p).Done?
    ensures t == AllocPageFor(k, p).value.1 && 0 <= t < VPNS
    ensures t in AllocPageFor(k, p).value.0.heap.mem
    ensures var k2 := SetMem(AllocPageFor(k, p).value.0, WritePage(AllocPageFor(k, p).value.0.heap.mem, t, page));
            && Extends(k, k2, p)
            && k2.procs[p].currentIdx == k.procs[p].currentIdx + 1
            && SameWalk(k.heap.mem, k2.heap.mem, k.procs[p].Root())
            && Private(k2, p, t) && t in k2.heap.mem && k2.heap.mem[t] == page
  {
    hide Base, KeepsOthers, AllocPageFor, HeapOk, Allocates, Walk;
    BaseOwned(k);
    var n := AllocFresh(k, p);
    t := AllocPageFor(k, p).value.1;
    var k1 := AllocPageFor(k, p).value.0;
    FreshExtends(k, k1, p, n, t);
    FreshBase(k, k1, p, n, t);
    FreshPage(k, k1, p, n, t);
    FreshOwn(k, k1, p, n, t);
    var mem2 := WritePage(k1.heap.mem, t, page);
    DataStoreBase(k1, p, mem2, t);
    KeepsTrans(k, k1, SetMem(k1, mem2), p);
    assert KeepsPrivate(k, SetMem(k1, mem2), p);
  }

  lemma BaseOwned(k: Kernel)
    requires Base(k)
    ensures Owned(k)
  {
  }

  lemma LoadPageFacts(k: Kernel, p: int, image: seq<Byte>, i: nat)
    requires Base(k) && Rooted(k, p) && i * PAGE_SIZE < |image| && i < k.procs[p].currentIdx <= PROC_REGION_MAX
    requires LoadPage(k, p, image, i * PAGE_SIZE).Done?
    ensures Extends(k, LoadPage(k, p, image, i * PAGE_SIZE).value, p)
    ensures i + 1 < LoadPage(k, p, image, i * PAGE_SIZE).value.procs[p].currentIdx
    ensures PageLoaded(LoadPage(k, p, image, i * PAGE_SIZE).value, p, image, i)
    ensures forall vpn :: 0 <= vpn < VPNS && vpn != USER_VPN + i ==>
              Translate(LoadPage(k, p, image, i * PAGE_SIZE).value, p, vpn) == Translate(k, p, vpn)
  {
    hide Extends, Base, MapPage, AllocPageFor, Private, WritePage, ImagePage, Walk;
    var off := i * PAGE_SIZE;
    var t := FillFacts(k, p, ImagePage(image, off));
    var k1 := AllocPageFor(k, p).value.0;
    var k2 := SetMem(k1, WritePage(k1.heap.mem, t, ImagePage(image, off)));
    ExtendsGives(k, k2, p);
    ImageVpn(i);
    MapPageRefines(k2, p, USER_BASE + off, t * PAGE_SIZE, IMAGE_PERM);
    var k3 := MapPage(k2, p, USER_BASE + off, t * PAGE_SIZE, IMAGE_PERM).value;
    ExtendsGives(k2, k3, p);
    ExtendsKeeps(k2, k3, p, t);
    ExtendsTrans(k, k2, k3, p);
  }

  lemma ImageVpn(i: nat)
    requires i < PROC_REGION_MAX
    ensures Vpn(USER_BASE + i * PAGE_SIZE) == USER_VPN + i < VPNS
  {
  }

  /** A page loaded earlier is still loaded after an extension that leaves its translation alone. */
  lemma StillLoaded(k: Kernel, k1: Kernel, p: int, image: seq<Byte>, i: nat)
    requires IsProc(k, p) && Extends(k, k1, p) && i * PAGE_SIZE < |image| && USER_VPN + i < VPNS
    requires PageLoaded(k, p, image, i) && Translate(k1, p, USER_VPN + i) == Translate(k, p, USER_VPN + i)
    ensures PageLoaded(k1, p, image, i)
  {
  }

  function PageCount(image: seq<Byte>): nat {
    (|image| + PAGE_SIZE - 1) / PAGE_SIZE
  }

  lemma {:induction false} LoadImageFacts(k: Kernel, p: int, image: seq<Byte>, i: nat)
    requires Base(k) && Rooted(k, p) && i < k.procs[p].currentIdx <= PROC_REGION_MAX
    requires LoadedUpTo(k, p, image, i)
    requires LoadImage(k, p, image, i * PAGE_SIZE).Done?
    ensures Extends(k, LoadImage(k, p, image, i * PAGE_SIZE).value, p)
    ensures i * PAGE_SIZE < |image| ==> PageCount(image) < PROC_REGION_MAX
    ensures LoadedUpTo(LoadImage(k, p, image, i * PAGE_SIZE).value, p, image, PageCount(image))
    ensures forall vpn :: 0 <= vpn < VPNS && !(USER_VPN + i <= vpn < USER_VPN + PageCount(image)) ==>
              Translate(LoadImage(k, p, image, i * PAGE_SIZE).value, p, vpn) == Translate(k, p, vpn)
    decreases |image| - i
  {
    hide Extends, Base, LoadPage, PageLoaded, Walk;
    if i * PAGE_SIZE >= |image| {
      ExtendsRefl(k, p);
    } else {
      LoadPageFacts(k, p, image, i);
      var k1 := LoadPage(k, p, image, i * PAGE_SIZE).value;
      ExtendsGives(k, k1, p);
      forall j: nat | j < i + 1 && j * PAGE_SIZE < |image| ensures USER_VPN + j < VPNS && PageLoaded(k1, p, image, j) {
        if j < i {
          StillLoaded(k, k1, p, image, j);
        }
      }
      assert (i + 1) * PAGE_SIZE == i * PAGE_SIZE + PAGE_SIZE;
      LoadImageFacts(k1, p, image, i + 1);
      ExtendsTrans(k, k1, LoadImage(k, p, image, i * PAGE_SIZE).value, p);
    }
  }
}
