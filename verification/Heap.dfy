/** The page allocator (kernel/allocator.c) over a region table and the RAM it manages. */
module Heap {
  import opened Machine
  import opened Regions

  /** Why the kernel stopped: its PANIC calls (a page fault ends in one); `RegionTableFull` for a
      store past the end of a process's `regions` array, where the C program has no defined
      behaviour; and `NoUserProcess` for a trap from user mode while the idle process runs. */
  datatype Stop =
    | OutOfMemory
    | InvalidRegionIndex
    | RegionNotAllocated
    | Unaligned
    | NoProcessSlot
    | RegionTableFull
    | PageFault
    | NoUserProcess

  datatype Outcome<+T> = Done(value: T) | Stopped(why: Stop) {
    predicate IsFailure() {
      Stopped?
    }

    function PropagateFailure<U>(): Outcome<U>
      requires Stopped?
    {
      Stopped(why)
    }

    function Extract(): T
      requires Done?
    {
      value
    }
  }

  datatype Heap = Heap(rs: Table, mem: Memory)

  /** The page number of the first page of a region. */
  function FirstPage(r: Region): int {
    r.start / PAGE_SIZE
  }

  /** The region table tiles the RAM and every page of the RAM is backed by memory. */
  ghost predicate HeapOk(h: Heap, ram: Ram) {
    && ram.Ok()
    && Tiled(h.rs, ram)
    && (forall p :: ram.lo / PAGE_SIZE <= p < ram.hi / PAGE_SIZE ==> p in h.mem)
  }

  predicate IsAllocated(rs: Table, x: int) {
    0 <= x < |rs| && rs[x].state.Allocated?
  }

  function Zeroed(mem: Memory, first: int, count: int): (mem1: Memory)
    ensures mem1.Keys == mem.Keys
    ensures forall p :: p in mem ==> mem1[p] == if first <= p < first + count then ZeroPage() else mem[p]
  {
    map p | p in mem :: if first <= p < first + count then ZeroPage() else mem[p]
  }

  /** `num_pages * PAGE_SIZE` in 32 bits. */
  function ByteSize(pages: int): (size: int)
    ensures 0 < pages && pages * PAGE_SIZE < TWO_32 ==> size == pages * PAGE_SIZE
  {
    pages * PAGE_SIZE % TWO_32
  }

  /** What callers ask for: at least one page, and a byte size that fits 32 bits. */
  predicate Askable(pages: int) {
    0 < pages && pages * PAGE_SIZE < TWO_32
  }

  function AllocRegion(h: Heap, pages: int): (r: Outcome<(Heap, int)>)
    ensures r.Done? ==> 0 <= r.value.1 < |r.value.0.rs|
  {
    var size := ByteSize(pages);
    var f := FindFit(h.rs, size, 0);
    var n := FindUnused(h.rs, 0);
    if f < 0 || n < 0 then Stopped(OutOfMemory)
    else Done((Heap(Carve(h.rs, f, n, size), Zeroed(h.mem, FirstPage(h.rs[f]), size / PAGE_SIZE)), n))
  }

  function ReleasePages(h: Heap, x: int): (r: Outcome<Heap>) {
    if x < 0 || x >= |h.rs| then Stopped(InvalidRegionIndex)
    else if !h.rs[x].state.Allocated? then Stopped(RegionNotAllocated)
    else Done(h.(rs := Release(h.rs, x)))
  }

  /** `release_pages` panics for exactly the indices outside the table and the regions not allocated. */
  lemma ReleaseStopsIff(h: Heap, ram: Ram, x: int)
    requires HeapOk(h, ram)
    ensures ReleasePages(h, x) == Stopped(InvalidRegionIndex) <==> x < 0 || x >= 128
    ensures ReleasePages(h, x) == Stopped(RegionNotAllocated) <==> 0 <= x < 128 && !IsAllocated(h.rs, x)
    ensures ReleasePages(h, x).Done? <==> IsAllocated(h.rs, x)
  {
    hide Release;
  }

  /** What an allocation gives: a fresh slot over zeroed pages that no allocation held. */
  ghost predicate Allocates(h: Heap, h1: Heap, n: int, pages: int) {
    && 0 <= n < |h.rs|
    && !h.rs[n].state.Allocated?
    && SameAllocatedBut(h.rs, h1.rs, n)
    && h1.rs[n].state.Allocated? && h1.rs[n].size == pages * PAGE_SIZE
    && h1.mem == Zeroed(h.mem, FirstPage(h1.rs[n]), pages)
    && (forall a :: h1.rs[n].Covers(a) ==> FreeAt(h.rs, a))
  }

  lemma AllocFacts(h: Heap, ram: Ram, pages: int)
    requires HeapOk(h, ram) && Askable(pages)
    requires AllocRegion(h, pages).Done?
    ensures HeapOk(AllocRegion(h, pages).value.0, ram)
    ensures Allocates(h, AllocRegion(h, pages).value.0, AllocRegion(h, pages).value.1, pages)
  {
    var size := ByteSize(pages);
    assert size % PAGE_SIZE == 0 && size / PAGE_SIZE == pages;
    CarveTiled(h.rs, ram, FindFit(h.rs, size, 0), FindUnused(h.rs, 0), size);
  }

  /** Allocation stops exactly when no FREE region is large enough for the 32-bit byte size or every
      slot is in use; in particular an exact fit still needs a spare slot. */
  lemma AllocStopsIff(h: Heap, pages: int)
    ensures AllocRegion(h, pages).Stopped? <==>
            (forall k :: 0 <= k < |h.rs| ==> !Fits(h.rs[k], ByteSize(pages))) ||
            (forall k :: 0 <= k < |h.rs| ==> h.rs[k].Live())
  {
  }

  /** Physical page `ppn` lies in region `r`. */
  predicate InRegion(r: Region, ppn: int) {
    r.start <= ppn * PAGE_SIZE < r.End()
  }

  /** Distinct allocations never share a page. */
  lemma AllocatedApart(h: Heap, ram: Ram, x: int, y: int, ppn: int)
    requires HeapOk(h, ram) && IsAllocated(h.rs, x) && IsAllocated(h.rs, y) && x != y
    ensures !(InRegion(h.rs[x], ppn) && InRegion(h.rs[y], ppn))
  {
    assert Apart(h.rs[x], h.rs[y]);
  }

  lemma AllocatedInRam(h: Heap, ram: Ram, x: int)
    requires HeapOk(h, ram) && IsAllocated(h.rs, x)
    ensures ram.lo / PAGE_SIZE <= FirstPage(h.rs[x]) < ram.hi / PAGE_SIZE
    ensures FirstPage(h.rs[x]) in h.mem
    ensures FirstPage(h.rs[x]) * PAGE_SIZE == h.rs[x].start
  {
    assert WellPlaced(h.rs[x], ram);
  }

  lemma HeapKeys(h: Heap, ram: Ram)
    requires HeapOk(h, ram)
    ensures forall mem: Memory :: mem.Keys == h.mem.Keys ==> HeapOk(h.(mem := mem), ram)
  {
  }
}
