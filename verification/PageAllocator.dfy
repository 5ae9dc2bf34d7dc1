/** kernel/allocator.c as it runs: a table split and merged in place. */
module PageAllocator {
  import opened Machine
  import opened Regions
  import opened Heap

  class Allocator {
    const ram: Ram
    const regions: array<Region>
    var mem: Memory

    ghost predicate Valid()
      reads this, regions
    {
      HeapOk(View(), ram)
    }

    ghost function View(): Heap
      reads this, regions
    {
      Heap(regions[..], mem)
    }

    /** `init_regions`: slot 0 spans the free RAM. */
    constructor (ram: Ram, mem: Memory)
      requires ram.Ok()
      requires forall p :: ram.lo / PAGE_SIZE <= p < ram.hi / PAGE_SIZE ==> p in mem
      ensures Valid() && fresh(regions)
      ensures this.ram == ram && View() == Heap(InitTable(ram), mem)
    {
      this.ram := ram;
      this.mem := mem;
      regions := new Region[MAX_REGIONS](_ => EMPTY);
      new;
      regions[0] := Region(ram.lo, ram.hi - ram.lo, Free);
      for i := 1 to MAX_REGIONS
        invariant this.mem == mem
        invariant regions[0] == Region(ram.lo, ram.hi - ram.lo, Free)
        invariant forall k :: 0 < k < i ==> regions[k] == EMPTY
      {
        regions[i] := EMPTY;
      }
      assert regions[..] == InitTable(ram);
      InitTiled(ram);
    }

    method FindUnusedRegionSlot() returns (r: int)
      ensures r == FindUnused(regions[..], 0)
    {
      for i := 0 to regions.Length
        invariant FindUnused(regions[..], 0) == FindUnused(regions[..], i)
      {
        if regions[i].state == Unused {
          return i;
        }
      }
      return -1;
    }

    method FindSuitableFreeRegion(size: int) returns (r: int)
      ensures r == FindFit(regions[..], size, 0)
    {
      for i := 0 to regions.Length
        invariant FindFit(regions[..], size, 0) == FindFit(regions[..], size, i)
      {
        if regions[i].state == Free && regions[i].size >= size {
          return i;
        }
      }
      return -1;
    }

    /** `alloc_region`: first fit, then the first unused slot. */
    method AllocRegionSlot(pages: int) returns (r: Outcome<int>)
      requires Valid() && Askable(pages)
      modifies this, regions
      ensures Valid()
      ensures match AllocRegion(old(View()), pages)
              case Stopped(why) => r == Stopped(why) && View() == old(View())
              case Done((h1, n)) => r == Done(n) && View() == h1
    {
      hide HeapOk, FindFit, FindUnused, Allocates, Zeroed;
      ghost var h := View();
      var size := ByteSize(pages);
      var freeIdx := FindSuitableFreeRegion(size);
      var newIdx := FindUnusedRegionSlot();
      if freeIdx < 0 || newIdx < 0 {
        return Stopped(OutOfMemory);
      }
      AllocFacts(h, ram, pages);
      var addr := regions[freeIdx].start;
      regions[newIdx] := Region(addr, size, Allocated);
      regions[freeIdx] := regions[freeIdx].(start := regions[freeIdx].start + size);
      regions[freeIdx] := regions[freeIdx].(size := regions[freeIdx].size - size);
      if regions[freeIdx].size == 0 {
        regions[freeIdx] := regions[freeIdx].(start := 0, state := Unused);
      }
      mem := Zeroed(mem, addr / PAGE_SIZE, size / PAGE_SIZE);
      assert regions[..] == Carve(h.rs, freeIdx, newIdx, size);
      return Done(newIdx);
    }

    method RegionToAddr(x: int) returns (r: Outcome<int>)
      requires Valid()
      ensures IsAllocated(regions[..], x) <==> r.Done?
      ensures IsAllocated(regions[..], x) ==> r == Done(regions[x].start)
      ensures r == Stopped(InvalidRegionIndex) <==> x < 0 || x >= MAX_REGIONS
      ensures r == Stopped(RegionNotAllocated) <==> 0 <= x < MAX_REGIONS && !regions[x].state.Allocated?
    {
      if x < 0 || x >= regions.Length {
        return Stopped(InvalidRegionIndex);
      }
      if regions[x].state != Allocated {
        return Stopped(RegionNotAllocated);
      }
      return Done(regions[x].start);
    }

    /** `alloc_pages`: the slot and its address; the second check never fails. */
    method AllocPages(pages: int) returns (r: Outcome<(int, int)>)
      requires Valid() && Askable(pages)
      modifies this, regions
      ensures Valid()
      ensures match AllocRegion(old(View()), pages)
              case Stopped(why) => r == Stopped(why) && View() == old(View())
              case Done((h1, n)) => View() == h1 && 0 <= n < |h1.rs| && r == Done((n, h1.rs[n].start))
    {
      AllocFactsIfDone(View(), ram, pages);
      var n :- AllocRegionSlot(pages);
      var addr := RegionToAddr(n);
      return Done((n, addr.value));
    }

    /** `merge_free_regions`: the nested loops perform one merge pass. */
    method MergeFreeRegions()
      modifies regions
      ensures regions[..] == MergePass(old(regions[..]))
    {
      ghost var was := regions[..];
      for i := 0 to regions.Length
        invariant MergeFrom(regions[..], i) == MergePass(was)
      {
        if regions[i].state != Free {
          continue;
        }
        ghost var target := MergePass(was);
        for j := 0 to regions.Length
          invariant regions[i].state == Free
          invariant MergeFrom(MergeInto(regions[..], i, j), i + 1) == target
        {
          if i == j || regions[j].state != Free {
            continue;
          }
          if regions[i].start + regions[i].size == regions[j].start {
            ghost var before := regions[..];
            regions[i] := regions[i].(size := regions[i].size + regions[j].size);
            regions[j] := Region(0, 0, Unused);
            assert regions[..] == Absorb(before, i, j);
          }
        }
      }
    }

    method ReleaseRegion(x: int) returns (r: Outcome<()>)
      requires Valid()
      modifies regions
      ensures Valid()
      ensures match ReleasePages(old(View()), x)
              case Stopped(why) => r == Stopped(why) && View() == old(View())
              case Done(h1) => r == Done(()) && View() == h1
    {
      if x < 0 || x >= regions.Length {
        return Stopped(InvalidRegionIndex);
      }
      if regions[x].state != Allocated {
        return Stopped(RegionNotAllocated);
      }
      ReleaseFacts(regions[..], ram, x);
      ghost var before := regions[..];
      regions[x] := regions[x].(state := Free);
      assert regions[..] == MarkFree(before, x);
      MergeFreeRegions();
      return Done(());
    }
  }

  lemma AllocFactsIfDone(h: Heap, ram: Ram, pages: int)
    requires HeapOk(h, ram) && Askable(pages)
    ensures AllocRegion(h, pages).Done? ==>
              HeapOk(AllocRegion(h, pages).value.0, ram) &&
              Allocates(h, AllocRegion(h, pages).value.0, AllocRegion(h, pages).value.1, pages)
  {
    if AllocRegion(h, pages).Done? {
      AllocFacts(h, ram, pages);
    }
  }
}
