/** Who holds which region, and why a store by one owner leaves the others alone. */
module Ownership {
  import opened Machine
  import opened Regions
  import opened Heap
  import opened PageTables
  import opened KernelState

  datatype Owner = OfProcess(p: int) | OfObject(i: int) | OfDevice

  /** Owner `o` has region index `x` recorded. */
  ghost predicate Holds(k: Kernel, o: Owner, x: int) {
    match o
    case OfProcess(p) => IsProc(k, p) && x in k.procs[p].Held()
    case OfObject(i) => 0 <= i < |k.objs| && k.objs[i].used && k.objs[i].region == x
    case OfDevice => x in k.devices
  }

  ghost predicate Exclusive(k: Kernel) {
    forall o1, o2, x :: Holds(k, o1, x) && Holds(k, o2, x) ==> o1 == o2
  }

  /** Every recorded region is ALLOCATED; processes and objects hold single pages. */
  ghost predicate HeldAllocated(k: Kernel) {
    forall o, x :: Holds(k, o, x) ==>
      IsAllocated(k.heap.rs, x) && (o.OfDevice? || k.heap.rs[x].size == PAGE_SIZE)
  }

  ghost predicate Distinct(s: seq<int>) {
    forall i, j :: 0 <= i < j < |s| ==> s[i] != s[j]
  }

  ghost predicate Shape(k: Kernel) {
    && |k.procs| == PROCS_MAX
    && |k.objs| == SHM_MAX
    && KERNEL_BASE < k.ram.lo
    && (forall p :: IsProc(k, p) ==>
          && |k.procs[p].regions| == PROC_REGION_MAX
          && k.procs[p].currentIdx <= PROC_REGION_MAX
          && |k.procs[p].shm| == PROC_SHM_MAX
          && Distinct(k.procs[p].Held()))
  }

  ghost function Pages(rs: Table, held: seq<int>): set<int> {
    set x | x in held && 0 <= x < |rs| :: FirstPage(rs[x])
  }

  /** The pages of process `p`. */
  ghost function Own(k: Kernel, p: int): set<int>
    requires IsProc(k, p)
  {
    Pages(k.heap.rs, k.procs[p].Held())
  }

  predicate Rooted(k: Kernel, p: int) {
    IsProc(k, p) && 0 < k.procs[p].currentIdx
  }

  /** The page table of `p` is page aligned, and all of its tables are pages of `p`. */
  ghost predicate SpaceOk(k: Kernel, p: int) {
    Rooted(k, p) ==>
      && k.procs[p].pageTable % PAGE_SIZE == 0
      && Tables(k.heap.mem, k.procs[p].Root(), Own(k, p))
  }

  ghost predicate Owned(k: Kernel) {
    && Shape(k)
    && HeapOk(k.heap, k.ram)
    && Exclusive(k)
    && HeldAllocated(k)
  }

  /** The part of the invariant that holds between any two statements of the kernel. */
  ghost predicate Base(k: Kernel) {
    Owned(k) && forall p :: SpaceOk(k, p)
  }

  /** A page of `p` that is not one of its page tables. */
  ghost predicate Private(k: Kernel, p: int, ppn: int)
    requires IsProc(k, p)
  {
    ppn in Own(k, p) && !IsTablePage(k.heap.mem, k.procs[p].Root(), ppn)
  }

  /** The private pages of `p` stay private and keep their contents. */
  ghost predicate KeepsPrivate(k: Kernel, k1: Kernel, p: int)
    requires IsProc(k, p) && IsProc(k1, p)
  {
    forall ppn :: Private(k, p, ppn) ==>
      && Private(k1, p, ppn)
      && ppn in k.heap.mem && ppn in k1.heap.mem && k1.heap.mem[ppn] == k.heap.mem[ppn]
  }

  // ---- pages follow regions ----

  lemma OwnHas(k: Kernel, p: int, ppn: int) returns (x: int)
    requires Owned(k) && IsProc(k, p) && ppn in Own(k, p)
    ensures Holds(k, OfProcess(p), x) && FirstPage(k.heap.rs[x]) == ppn && ppn in k.heap.mem
    ensures InRegion(k.heap.rs[x], ppn)
  {
    x :| x in k.procs[p].Held() && 0 <= x < |k.heap.rs| && FirstPage(k.heap.rs[x]) == ppn;
    assert Holds(k, OfProcess(p), x);
    AllocatedInRam(k.heap, k.ram, x);
  }

  /** A page lies in the region of at most one owner. */
  lemma PageOwnerUnique(k: Kernel, o1: Owner, x: int, o2: Owner, y: int, ppn: int)
    requires Owned(k) && Holds(k, o1, x) && Holds(k, o2, y)
    requires InRegion(k.heap.rs[x], ppn) && InRegion(k.heap.rs[y], ppn)
    ensures o1 == o2 && x == y
  {
    if x != y {
      AllocatedApart(k.heap, k.ram, x, y, ppn);
    }
  }

  // ---- framing ----

  /** Nothing recorded by an owner other than `p` changes: not the record, not the region, not the
      contents of its pages; and the regions `p` had keep their place. */
  ghost predicate KeepsOthers(k: Kernel, k1: Kernel, p: int) {
    && |k1.procs| == |k.procs|
    && k1.ram == k.ram && k1.devices == k.devices
    && (forall q :: IsProc(k, q) && q != p ==> k1.procs[q] == k.procs[q])
    && (forall o, x :: Holds(k, o, x) && o != OfProcess(p) ==> Holds(k1, o, x))
    && (forall o, x :: Holds(k, o, x) && 0 <= x < |k.heap.rs| ==>
          0 <= x < |k1.heap.rs| && k1.heap.rs[x] == k.heap.rs[x])
    && SameContents(k, k1, p)
  }

  ghost predicate SameContents(k: Kernel, k1: Kernel, p: int) {
    && k1.heap.mem.Keys == k.heap.mem.Keys
    && (forall o, x, ppn ::
          Holds(k, o, x) && o != OfProcess(p) && 0 <= x < |k.heap.rs| && InRegion(k.heap.rs[x], ppn) ==>
          (ppn in k.heap.mem ==> k1.heap.mem[ppn] == k.heap.mem[ppn]))
  }

  lemma KeepsTrans(k: Kernel, k1: Kernel, k2: Kernel, p: int)
    requires KeepsOthers(k, k1, p) && KeepsOthers(k1, k2, p)
    requires forall x :: Holds(k, OfProcess(p), x) ==> Holds(k1, OfProcess(p), x)
    ensures KeepsOthers(k, k2, p)
  {
    assert SameContents(k, k2, p);
  }

  lemma OwnKept(k: Kernel, k1: Kernel, p: int, q: int)
    requires Owned(k) && KeepsOthers(k, k1, p) && IsProc(k, q) && q != p
    ensures Own(k1, q) == Own(k, q)
    ensures AgreeOn(k.heap.mem, k1.heap.mem, Own(k, q))
  {
    assert forall x :: x in k.procs[q].Held() ==> Holds(k, OfProcess(q), x);
    forall ppn | ppn in Own(k, q) ensures ppn in k.heap.mem && k1.heap.mem[ppn] == k.heap.mem[ppn] {
      var x := OwnHas(k, q, ppn);
    }
  }

  /** What another process translates, and which of its pages are tables, stays the same. */
  lemma OthersKept(k: Kernel, k1: Kernel, p: int, q: int)
    requires Base(k) && KeepsOthers(k, k1, p) && IsProc(k, q) && q != p
    ensures SpaceOk(k1, q)
    ensures Own(k1, q) == Own(k, q)
    ensures Rooted(k, q) ==> SameWalk(k.heap.mem, k1.heap.mem, k.procs[q].Root())
    ensures Rooted(k, q) ==> forall ppn :: Private(k, q, ppn) <==> Private(k1, q, ppn)
    ensures AgreeOn(k.heap.mem, k1.heap.mem, Own(k, q))
  {
    OwnKept(k, k1, p, q);
    if Rooted(k, q) {
      assert SpaceOk(k, q);
      WalkFrame(k.heap.mem, k1.heap.mem, k.procs[q].Root(), Own(k, q));
    }
  }
}
