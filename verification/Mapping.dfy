/** `map_page` and `unmap_page` (kernel/process.c) refine a plain map from virtual pages to
    (frame, permissions): each changes exactly one key of one process. */
module Mapping {
  import opened Machine
  import opened Regions
  import opened Heap
  import opened PageTables
  import opened KernelState
  import opened Ownership

  // ---- a page more for process p ----

  /** `k1` is `k` with a fresh zeroed page `t`, region `n`, recorded last in process `p`. */
  ghost predicate Fresh(k: Kernel, k1: Kernel, p: int, n: int, t: int)
    requires IsProc(k, p)
  {
    && OnlySpace(k, k1, p)
    && Allocates(k.heap, k1.heap, n, 1)
    && k1.procs[p].Held() == k.procs[p].Held() + [n]
    && |k1.procs[p].regions| == |k.procs[p].regions|
    && k1.procs[p].currentIdx == k.procs[p].currentIdx + 1 <= |k.procs[p].regions|
    && t == FirstPage(k1.heap.rs[n])
  }

  lemma AllocFresh(k: Kernel, p: int) returns (n: int)
    requires Owned(k) && IsProc(k, p) && AllocPageFor(k, p).Done?
    ensures Fresh(k, AllocPageFor(k, p).value.0, p, n, AllocPageFor(k, p).value.1)
    ensures HeapOk(AllocPageFor(k, p).value.0.heap, k.ram)
  {
    AllocFacts(k.heap, k.ram, 1);
    n := AllocRegion(k.heap, 1).value.1;
    var k1 := AllocPageFor(k, p).value.0;
    assert k1.procs[p].Held() == k.procs[p].Held() + [n];
  }

  /** Only `p` gains a holding, the fresh region, which nobody held. */
  lemma FreshHolds(k: Kernel, k1: Kernel, p: int, n: int, t: int, o: Owner, x: int)
    requires Owned(k) && IsProc(k, p) && Fresh(k, k1, p, n, t)
    ensures Holds(k1, o, x) <==> Holds(k, o, x) || (o == OfProcess(p) && x == n)
    ensures !Holds(k, o, n)
    ensures Holds(k, o, x) ==> k1.heap.rs[x] == k.heap.rs[x]
  {
  }

  lemma FreshOwned(k: Kernel, k1: Kernel, p: int, n: int, t: int)
    requires Owned(k) && IsProc(k, p) && Fresh(k, k1, p, n, t) && HeapOk(k1.heap, k.ram)
    ensures Owned(k1)
  {
    forall o, x
      ensures Holds(k1, o, x) <==> Holds(k, o, x) || (o == OfProcess(p) && x == n)
      ensures !Holds(k, o, n)
      ensures Holds(k, o, x) ==> k1.heap.rs[x] == k.heap.rs[x]
    {
      FreshHolds(k, k1, p, n, t, o, x);
    }
    assert !Holds(k, OfProcess(p), n);
    DistinctSnoc(k.procs[p].Held(), n);
  }

  lemma DistinctSnoc(s: seq<int>, n: int)
    requires Distinct(s) && n !in s
    ensures Distinct(s + [n])
  {
  }

  lemma FreshPage(k: Kernel, k1: Kernel, p: int, n: int, t: int)
    requires Owned(k) && IsProc(k, p) && Fresh(k, k1, p, n, t) && HeapOk(k1.heap, k.ram)
    ensures 0 <= t < VPNS && t in k1.heap.mem && k1.heap.mem[t] == ZeroPage()
    ensures t * PAGE_SIZE == k1.heap.rs[n].start
    ensures k1.heap.mem.Keys == k.heap.mem.Keys
    ensures forall q :: q in k.heap.mem && q != t ==> k1.heap.mem[q] == k.heap.mem[q]
    ensures k.ram.lo / PAGE_SIZE <= t < k.ram.hi / PAGE_SIZE
  {
    AllocatedInRam(k1.heap, k.ram, n);
  }

  /** No owner's region contains the fresh page. */
  lemma FreshClear(k: Kernel, k1: Kernel, p: int, n: int, t: int, o: Owner, x: int)
    requires Owned(k) && IsProc(k, p) && Fresh(k, k1, p, n, t) && HeapOk(k1.heap, k.ram)
    requires Holds(k, o, x)
    ensures !InRegion(k.heap.rs[x], t)
  {
    FreshHolds(k, k1, p, n, t, o, x);
    FreshPage(k, k1, p, n, t);
    assert Apart(k1.heap.rs[x], k1.heap.rs[n]);
  }

  lemma FreshKeeps(k: Kernel, k1: Kernel, p: int, n: int, t: int)
    requires Owned(k) && IsProc(k, p) && Fresh(k, k1, p, n, t) && HeapOk(k1.heap, k.ram)
    ensures KeepsOthers(k, k1, p)
  {
    FreshPage(k, k1, p, n, t);
    forall o, x | Holds(k, o, x)
      ensures Holds(k1, o, x) && k1.heap.rs[x] == k.heap.rs[x] && !InRegion(k.heap.rs[x], t)
    {
      FreshHolds(k, k1, p, n, t, o, x);
      FreshClear(k, k1, p, n, t, o, x);
    }
  }

  lemma FreshOwn(k: Kernel, k1: Kernel, p: int, n: int, t: int)
    requires Owned(k) && IsProc(k, p) && Fresh(k, k1, p, n, t) && HeapOk(k1.heap, k.ram)
    ensures t !in Own(k, p) && Own(k1, p) == Own(k, p) + {t}
    ensures AgreeOn(k.heap.mem, k1.heap.mem, Own(k, p))
  {
    hide Owned, Fresh, HeapOk, Own;
    FreshPage(k, k1, p, n, t);
    FreshTable(k, k1, p, n, t);
    forall ppn | ppn in Own(k, p) ensures ppn != t && ppn in k.heap.mem && ppn in Own(k1, p) {
      OwnStays(k, k1, p, n, t, ppn);
    }
    forall ppn | ppn in Own(k1, p) && ppn != t ensures ppn in Own(k, p) {
      OwnCame(k, k1, p, n, t, ppn);
    }
    OwnGains(k, k1, p, n, t);
  }

  lemma OwnStays(k: Kernel, k1: Kernel, p: int, n: int, t: int, ppn: int)
    requires Owned(k) && IsProc(k, p) && Fresh(k, k1, p, n, t) && HeapOk(k1.heap, k.ram) && ppn in Own(k, p)
    ensures ppn != t && ppn in k.heap.mem && ppn in Own(k1, p)
  {
    hide HeapOk, Exclusive, Allocates;
    var x := OwnHas(k, p, ppn);
    FreshClear(k, k1, p, n, t, OfProcess(p), x);
    FreshHolds(k, k1, p, n, t, OfProcess(p), x);
    FreshTable(k, k1, p, n, t);
    assert x in k1.procs[p].Held();
  }

  lemma OwnCame(k: Kernel, k1: Kernel, p: int, n: int, t: int, ppn: int)
    requires Owned(k) && IsProc(k, p) && Fresh(k, k1, p, n, t) && ppn in Own(k1, p) && ppn != t
    ensures ppn in Own(k, p)
  {
    hide HeapOk, Exclusive, HeldAllocated, Allocates;
    var x :| x in k1.procs[p].Held() && 0 <= x < |k1.heap.rs| && FirstPage(k1.heap.rs[x]) == ppn;
    assert x in k.procs[p].Held();
    FreshHolds(k, k1, p, n, t, OfProcess(p), x);
    FreshTable(k, k1, p, n, t);
  }

  lemma OwnGains(k: Kernel, k1: Kernel, p: int, n: int, t: int)
    requires Owned(k) && IsProc(k, p) && Fresh(k, k1, p, n, t)
    ensures IsProc(k1, p) && t in Own(k1, p)
  {
    hide Owned, Allocates;
    FreshTable(k, k1, p, n, t);
    assert k1.procs[p].Held()[|k.procs[p].Held()|] == n;
  }

  lemma FreshTable(k: Kernel, k1: Kernel, p: int, n: int, t: int)
    requires IsProc(k, p) && Fresh(k, k1, p, n, t)
    ensures |k1.heap.rs| == |k.heap.rs| && 0 <= n < |k1.heap.rs| && IsProc(k1, p)
  {
  }

  /** A fresh page changes no translation of any process and becomes a private page of `p`. */
  lemma FreshBase(k: Kernel, k1: Kernel, p: int, n: int, t: int)
    requires Base(k) && Rooted(k, p) && Fresh(k, k1, p, n, t) && HeapOk(k1.heap, k.ram)
    ensures Base(k1)
    ensures SameWalk(k.heap.mem, k1.heap.mem, k.procs[p].Root())
    ensures Private(k1, p, t)
    ensures KeepsPrivate(k, k1, p)
    ensures forall ppn :: IsTablePage(k1.heap.mem, k.procs[p].Root(), ppn) <==>
              IsTablePage(k.heap.mem, k.procs[p].Root(), ppn)
  {
    var root := k.procs[p].Root();
    FreshOwned(k, k1, p, n, t);
    FreshKeeps(k, k1, p, n, t);
    FreshOwn(k, k1, p, n, t);
    assert SpaceOk(k, p);
    WalkFrame(k.heap.mem, k1.heap.mem, root, Own(k, p));
    forall x | x in Own(k1, p) ensures x in k1.heap.mem {
      var r := OwnHas(k1, p, x);
    }
    FrameMono(k1.heap.mem, root, Own(k, p), Own(k1, p));
    forall q ensures SpaceOk(k1, q) {
      if IsProc(k, q) && q != p {
        OthersKept(k, k1, p, q);
      }
    }
    TablesInOwn(k1.heap.mem, root, Own(k, p), t);
  }

  lemma TablesInOwn(mem: Memory, root: int, own: set<int>, ppn: int)
    requires Tables(mem, root, own)
    ensures IsTablePage(mem, root, ppn) ==> ppn in own
  {
  }

  // ---- stores into the tables of process p ----

  /** A store into a page of `p` is invisible to every other owner. */
  lemma StoreKeeps(k: Kernel, p: int, mem1: Memory, page: int)
    requires Owned(k) && IsProc(k, p) && page in Own(k, p) && DiffersAt(k.heap.mem, mem1, page)
    ensures Owned(SetMem(k, mem1)) && KeepsOthers(k, SetMem(k, mem1), p)
  {
    var k1 := SetMem(k, mem1);
    assert forall o, x :: Holds(k1, o, x) <==> Holds(k, o, x);
    var y := OwnHas(k, p, page);
    forall o, x, ppn | Holds(k, o, x) && o != OfProcess(p) && InRegion(k.heap.rs[x], ppn)
      ensures ppn != page
    {
      if ppn == page {
        PageOwnerUnique(k, o, x, OfProcess(p), y, page);
      }
    }
  }

  lemma StoreBase(k: Kernel, p: int, mem1: Memory, page: int)
    requires Base(k) && Rooted(k, p) && page in Own(k, p) && DiffersAt(k.heap.mem, mem1, page)
    requires Tables(mem1, k.procs[p].Root(), Own(k, p))
    ensures Base(SetMem(k, mem1)) && KeepsOthers(k, SetMem(k, mem1), p)
  {
    var k1 := SetMem(k, mem1);
    StoreKeeps(k, p, mem1, page);
    assert Own(k1, p) == Own(k, p);
    assert SpaceOk(k, p);
    forall q ensures SpaceOk(k1, q) {
      if IsProc(k, q) && q != p {
        OthersKept(k, k1, p, q);
      }
    }
  }

  /** What every step that builds up the address space of `p` leaves true. */
  ghost predicate Extends(k: Kernel, k1: Kernel, p: int)
    requires IsProc(k, p)
  {
    && Base(k1)
    && Rooted(k1, p)
    && OnlySpace(k, k1, p)
    && KeepsOthers(k, k1, p)
    && KeepsPrivate(k, k1, p)
    && k.procs[p].Held() <= k1.procs[p].Held()
  }

  lemma ExtendsGives(k: Kernel, k1: Kernel, p: int)
    requires Base(k) && IsProc(k, p) && Extends(k, k1, p)
    ensures Base(k1) && Rooted(k1, p) && OnlySpace(k, k1, p) && k1.procs[p].currentIdx <= PROC_REGION_MAX
    ensures k1.procs[p].Root() == k.procs[p].Root() && k.procs[p].currentIdx <= k1.procs[p].currentIdx
  {
    assert |k.procs[p].Held()| <= |k1.procs[p].Held()|;
  }

  lemma ExtendsKeeps(k: Kernel, k1: Kernel, p: int, ppn: int)
    requires IsProc(k, p) && Extends(k, k1, p) && Private(k, p, ppn)
    ensures IsProc(k1, p) && Private(k1, p, ppn)
    ensures ppn in k.heap.mem && ppn in k1.heap.mem && k1.heap.mem[ppn] == k.heap.mem[ppn]
  {
  }

  lemma ExtendsTrans(k: Kernel, k1: Kernel, k2: Kernel, p: int)
    requires IsProc(k, p) && Extends(k, k1, p) && Extends(k1, k2, p)
    ensures Extends(k, k2, p)
  {
    KeepsTrans(k, k1, k2, p);
  }

  lemma FreshExtends(k: Kernel, k1: Kernel, p: int, n: int, t: int)
    requires Base(k) && Rooted(k, p) && Fresh(k, k1, p, n, t) && HeapOk(k1.heap, k.ram)
    ensures Extends(k, k1, p)
  {
    FreshBase(k, k1, p, n, t);
    FreshKeeps(k, k1, p, n, t);
  }

  /** Storing into a table page of `p` extends its address space when the tables stay well formed
      and at most a non-private page becomes a table. */
  lemma TableStoreExtends(k: Kernel, p: int, mem1: Memory, page: int)
    requires Base(k) && Rooted(k, p) && DiffersAt(k.heap.mem, mem1, page)
    requires IsTablePage(k.heap.mem, k.procs[p].Root(), page)
    requires Tables(mem1, k.procs[p].Root(), Own(k, p))
    requires forall ppn :: IsTablePage(mem1, k.procs[p].Root(), ppn) ==> IsTablePage(k.heap.mem, k.procs[p].Root(), ppn)
    ensures Extends(k, SetMem(k, mem1), p)
  {
    var k1 := SetMem(k, mem1);
    assert SpaceOk(k, p);
    TablesInOwn(k.heap.mem, k.procs[p].Root(), Own(k, p), page);
    StoreBase(k, p, mem1, page);
    assert Own(k1, p) == Own(k, p);
    assert KeepsPrivate(k, k1, p);
  }

  /** Installing the fresh page as a table: `mid` has the page, `k1` the link to it. */
  lemma InstallExtends(k: Kernel, mid: Kernel, p: int, n: int, t: int, v1: int)
    requires Base(k) && Rooted(k, p) && Fresh(k, mid, p, n, t) && HeapOk(mid.heap, k.ram)
    requires 0 <= v1 < WORDS_PER_PAGE && !HasTable(k.heap.mem, k.procs[p].Root(), v1)
    ensures Extends(k, SetMem(mid, WithTable(mid.heap.mem, k.procs[p].Root(), v1, t)), p)
    ensures SameWalk(k.heap.mem, WithTable(mid.heap.mem, k.procs[p].Root(), v1, t), k.procs[p].Root())
    ensures HasTable(WithTable(mid.heap.mem, k.procs[p].Root(), v1, t), k.procs[p].Root(), v1)
  {
    hide Owned, HeapOk, Fresh, KeepsOthers, KeepsPrivate, Walk, Own, IsTablePage, EncodePte;
    FreshTable(k, mid, p, n, t);
    FreshOnly(k, mid, p, n, t);
    var root := k.procs[p].Root();
    var mem1 := WithTable(mid.heap.mem, root, v1, t);
    var k1 := SetMem(mid, mem1);
    FreshExtends(k, mid, p, n, t);
    FreshBase(k, mid, p, n, t);
    FreshOwn(k, mid, p, n, t);
    FreshPage(k, mid, p, n, t);
    assert SpaceOk(k, p);
    WalkFrame(k.heap.mem, mid.heap.mem, root, Own(k, p));
    InstallTables(mid.heap.mem, root, Own(k, p), v1, t);
    RootAfterInstall(mid.heap.mem, root, v1, t, v1);
    forall vpn | 0 <= vpn < VPNS ensures Walk(mem1, root, vpn) == Walk(k.heap.mem, root, vpn) {
      InstallWalk(mid.heap.mem, root, Own(k, p), v1, t, vpn);
    }
    StoreBase(mid, p, mem1, root);
    KeepsTrans(k, mid, k1, p);
    InstallPrivate(k, mid, k1, p, t);
  }

  lemma FreshOnly(k: Kernel, k1: Kernel, p: int, n: int, t: int)
    requires IsProc(k, p) && Fresh(k, k1, p, n, t)
    ensures OnlySpace(k, k1, p) && k1.procs[p].Held() == k.procs[p].Held() + [n]
  {
  }

  lemma InstallPrivate(k: Kernel, mid: Kernel, k1: Kernel, p: int, t: int)
    requires IsProc(k, p) && IsProc(mid, p) && IsProc(k1, p) && KeepsPrivate(k, mid, p)
    requires k1 == SetMem(mid, k1.heap.mem) && mid.procs[p].Root() == k.procs[p].Root()
    requires DiffersAt(mid.heap.mem, k1.heap.mem, k.procs[p].Root())
    requires t !in Own(k, p)
    requires forall ppn :: IsTablePage(k1.heap.mem, k.procs[p].Root(), ppn) ==>
              IsTablePage(mid.heap.mem, k.procs[p].Root(), ppn) || ppn == t
    ensures KeepsPrivate(k, k1, p)
  {
    assert Own(k1, p) == Own(mid, p);
  }

  lemma EnsureTableExtends(k: Kernel, p: int, v1: int)
    requires Base(k) && Rooted(k, p) && 0 <= v1 < WORDS_PER_PAGE
    requires EnsureTable(k, p, v1).Done?
    ensures Extends(k, EnsureTable(k, p, v1).value, p)
    ensures SameWalk(k.heap.mem, EnsureTable(k, p, v1).value.heap.mem, k.procs[p].Root())
    ensures HasTable(EnsureTable(k, p, v1).value.heap.mem, k.procs[p].Root(), v1)
  {
    if HasTable(k.heap.mem, k.procs[p].Root(), v1) {
      ExtendsRefl(k, p);
    } else {
      var n := AllocFresh(k, p);
      InstallExtends(k, AllocPageFor(k, p).value.0, p, n, AllocPageFor(k, p).value.1, v1);
    }
  }

  lemma ExtendsRefl(k: Kernel, p: int)
    requires Base(k) && Rooted(k, p)
    ensures Extends(k, k, p)
  {
    assert SpaceOk(k, p);
  }

  lemma LeafExtends(k: Kernel, p: int, vpn: int, w: Word)
    requires Base(k) && Rooted(k, p) && 0 <= vpn < VPNS
    requires HasTable(k.heap.mem, k.procs[p].Root(), vpn / 1024)
    ensures Extends(k, SetMem(k, WithLeaf(k.heap.mem, k.procs[p].Root(), vpn, w)), p)
  {
    var root := k.procs[p].Root();
    assert SpaceOk(k, p);
    LeafTables(k.heap.mem, root, Own(k, p), vpn, w);
    TableStoreExtends(k, p, WithLeaf(k.heap.mem, root, vpn, w), TableOf(k.heap.mem, root, vpn / 1024));
  }

  /** The translations of `p` in `k1` are those in `k` with `vpn` mapped to `leaf`. */
  ghost predicate MapsTo(k: Kernel, k1: Kernel, p: int, vpn: int, leaf: Option<Leaf>)
    requires IsProc(k, p)
  {
    forall x :: 0 <= x < VPNS ==>
      Walk(k1.heap.mem, k.procs[p].Root(), x) == if x == vpn then leaf else Walk(k.heap.mem, k.procs[p].Root(), x)
  }

  /** `map_page` adds or replaces exactly one key of the map that the tables of `p` represent, also
      when it has to allocate a second-level table. */
  lemma MapPageRefines(k: Kernel, p: int, vaddr: int, paddr: int, perm: Perm)
    requires Base(k) && Rooted(k, p) && 0 <= paddr < TWO_32
    requires MapPage(k, p, vaddr, paddr, perm).Done?
    ensures Extends(k, MapPage(k, p, vaddr, paddr, perm).value, p)
    ensures MapsTo(k, MapPage(k, p, vaddr, paddr, perm).value, p, Vpn(vaddr), Some(Leaf(paddr / PAGE_SIZE, perm)))
  {
    var vpn, w := Vpn(vaddr), EncodePte(paddr / PAGE_SIZE, perm);
    EnsureTableExtends(k, p, vpn / 1024);
    var mid := EnsureTable(k, p, vpn / 1024).value;
    LeafExtends(mid, p, vpn, w);
    ExtendsTrans(k, mid, MapPage(k, p, vaddr, paddr, perm).value, p);
    PteRoundTrip(paddr / PAGE_SIZE, perm);
    assert SpaceOk(mid, p);
    forall x | 0 <= x < VPNS
      ensures Walk(MapPage(k, p, vaddr, paddr, perm).value.heap.mem, k.procs[p].Root(), x) ==
              if x == vpn then Some(Leaf(paddr / PAGE_SIZE, perm)) else Walk(k.heap.mem, k.procs[p].Root(), x)
    {
      LeafWalk(mid.heap.mem, k.procs[p].Root(), Own(mid, p), vpn, w, x);
    }
  }

  /** `unmap_page` removes exactly one key. */
  lemma UnmapPageRefines(k: Kernel, p: int, vaddr: int)
    requires Base(k) && Rooted(k, p)
    requires UnmapPage(k, p, vaddr).Done?
    ensures Extends(k, UnmapPage(k, p, vaddr).value, p)
    ensures MapsTo(k, UnmapPage(k, p, vaddr).value, p, Vpn(vaddr), None)
  {
    var vpn, root := Vpn(vaddr), k.procs[p].Root();
    assert SpaceOk(k, p);
    if HasTable(k.heap.mem, root, vpn / 1024) {
      LeafExtends(k, p, vpn, 0);
      forall x | 0 <= x < VPNS
        ensures Walk(UnmapPage(k, p, vaddr).value.heap.mem, root, x) ==
                if x == vpn then None else Walk(k.heap.mem, root, x)
      {
        LeafWalk(k.heap.mem, root, Own(k, p), vpn, 0, x);
      }
    } else {
      ExtendsRefl(k, p);
    }
  }

  /** A store into a page of `p` that is not a table changes no translation at all. */
  lemma DataStoreBase(k: Kernel, p: int, mem1: Memory, page: int)
    requires Base(k) && Rooted(k, p) && Private(k, p, page) && DiffersAt(k.heap.mem, mem1, page)
    ensures Base(SetMem(k, mem1)) && KeepsOthers(k, SetMem(k, mem1), p)
    ensures SameWalk(k.heap.mem, mem1, k.procs[p].Root())
    ensures forall ppn :: Private(SetMem(k, mem1), p, ppn) <==> Private(k, p, ppn)
  {
    assert SpaceOk(k, p);
    NonTableStore(k.heap.mem, mem1, k.procs[p].Root(), Own(k, p), page);
    StoreBase(k, p, mem1, page);
    assert Own(SetMem(k, mem1), p) == Own(k, p);
  }
}
