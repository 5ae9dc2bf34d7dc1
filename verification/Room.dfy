/** How much the page allocator (kernel/allocator.c) still has to give: when a row of one-page
    allocations succeeds, in general and on the table that boot leaves. */
module Room {
  import opened Machine
  import opened Regions
  import opened Heap

  /** `alloc_region(1)` on the region table alone. */
  function TakePage(rs: Table): Outcome<Table> {
    var f, n := FindFit(rs, PAGE_SIZE, 0), FindUnused(rs, 0);
    if f < 0 || n < 0 then Stopped(OutOfMemory) else Done(Carve(rs, f, n, PAGE_SIZE))
  }

  /** `c` one-page allocations in a row. */
  function TakePages(rs: Table, c: nat): Outcome<Table>
    decreases c
  {
    if c == 0 then Done(rs)
    else
      var rs1 :- TakePage(rs);
      TakePages(rs1, c - 1)
  }

  // ---- free bytes and free slots ----

  function FreeSize(r: Region): int {
    if r.state.Free? then r.size else 0
  }

  function FreeBytes(rs: Table): int {
    if rs == [] then 0 else FreeBytes(rs[..|rs| - 1]) + FreeSize(rs[|rs| - 1])
  }

  lemma {:induction false} FreeUpdate(rs: Table, i: int, r: Region)
    requires 0 <= i < |rs|
    ensures FreeBytes(rs[i := r]) == FreeBytes(rs) - FreeSize(rs[i]) + FreeSize(r)
  {
    var n := |rs| - 1;
    if i < n {
      assert rs[i := r][..n] == rs[..n][i := r];
      FreeUpdate(rs[..n], i, r);
    } else {
      assert rs[i := r][..n] == rs[..n];
    }
  }

  lemma {:induction false} NoFreeNoBytes(rs: Table)
    requires forall i :: 0 <= i < |rs| ==> !rs[i].state.Free?
    ensures FreeBytes(rs) == 0
  {
    if rs != [] {
      NoFreeNoBytes(rs[..|rs| - 1]);
    }
  }

  lemma {:induction false} FreeAtLeast(rs: Table, i: int)
    requires 0 <= i < |rs| && forall j :: 0 <= j < |rs| ==> 0 <= FreeSize(rs[j])
    ensures FreeSize(rs[i]) <= FreeBytes(rs)
  {
    var n := |rs| - 1;
    if i < n {
      FreeAtLeast(rs[..n], i);
    } else {
      FreeNonNegative(rs[..n]);
    }
  }

  lemma {:induction false} FreeNonNegative(rs: Table)
    requires forall j :: 0 <= j < |rs| ==> 0 <= FreeSize(rs[j])
    ensures 0 <= FreeBytes(rs)
  {
    if rs != [] {
      FreeNonNegative(rs[..|rs| - 1]);
    }
  }

  lemma {:induction false} AllLive(rs: Table)
    ensures LiveCount(rs) <= |rs|
    ensures LiveCount(rs) == |rs| <==> forall i :: 0 <= i < |rs| ==> rs[i].Live()
  {
    if rs != [] {
      AllLive(rs[..|rs| - 1]);
    }
  }

  /** A page can be had exactly when some byte is free and some slot is unused. */
  lemma TakePageIff(rs: Table, ram: Ram)
    requires Tiled(rs, ram)
    ensures TakePage(rs).Done? <==> 0 < FreeBytes(rs) && LiveCount(rs) < MAX_REGIONS
  {
    hide Disjoint, Covered, Carve;
    AllLive(rs);
    assert forall j :: 0 <= j < |rs| && rs[j].Live() ==> WellPlaced(rs[j], ram);
    if i :| 0 <= i < |rs| && rs[i].state.Free? {
      FreeAtLeast(rs, i);
      PageFits(rs[i], ram);
      assert Fits(rs[i], PAGE_SIZE);
    } else {
      NoFreeNoBytes(rs);
    }
  }

  lemma PageFits(r: Region, ram: Ram)
    requires WellPlaced(r, ram)
    ensures PAGE_SIZE <= r.size
  {
  }

  lemma TakePageRoom(rs: Table, ram: Ram)
    requires Tiled(rs, ram) && TakePage(rs).Done?
    ensures Tiled(TakePage(rs).value, ram)
    ensures FreeBytes(TakePage(rs).value) == FreeBytes(rs) - PAGE_SIZE
    ensures LiveCount(rs) <= LiveCount(TakePage(rs).value) <= LiveCount(rs) + 1
  {
    var f, n := FindFit(rs, PAGE_SIZE, 0), FindUnused(rs, 0);
    CarveTiled(rs, ram, f, n, PAGE_SIZE);
    CarveRoom(rs, f, n, PAGE_SIZE);
  }

  lemma CarveRoom(rs: Table, f: int, n: int, size: int)
    requires 0 <= f < |rs| && 0 <= n < |rs| && rs[f].state.Free? && rs[n].state.Unused? && 0 < size <= rs[f].size
    ensures FreeBytes(Carve(rs, f, n, size)) == FreeBytes(rs) - size
    ensures LiveCount(rs) <= LiveCount(Carve(rs, f, n, size)) <= LiveCount(rs) + 1
  {
    var r := Region(rs[f].start, size, Allocated);
    FreeUpdate(rs, n, r);
    FreeUpdate(rs[n := r], f, Remainder(rs[f], size));
    LiveUpdate(rs, n, r);
    LiveUpdate(rs[n := r], f, Remainder(rs[f], size));
  }

  /** `c` pages can be had only if `c` pages are free, and whenever `c` slots are unused besides. */
  lemma {:induction false} RoomTakes(rs: Table, ram: Ram, c: nat)
    requires Tiled(rs, ram)
    ensures TakePages(rs, c).Done? ==> c * PAGE_SIZE <= FreeBytes(rs)
    ensures c * PAGE_SIZE <= FreeBytes(rs) && LiveCount(rs) + c <= MAX_REGIONS ==> TakePages(rs, c).Done?
    decreases c
  {
    hide TakePage, Tiled, FreeBytes, LiveCount;
    if c == 0 {
      TiledFree(rs, ram);
    } else {
      TakePageIff(rs, ram);
      if TakePage(rs).Done? {
        TakePageRoom(rs, ram);
        RoomTakes(TakePage(rs).value, ram, c - 1);
      }
    }
  }

  lemma TiledFree(rs: Table, ram: Ram)
    requires Tiled(rs, ram)
    ensures 0 <= FreeBytes(rs)
  {
    hide Disjoint, Covered;
    FreeNonNegative(rs);
  }

  // ---- the table while nothing has been released yet ----

  /** Slot 0 is the free rest of the RAM, `free` bytes; slots 1 to `n` are allocated, the last of them
      just below the rest; the others are unused. */
  ghost predicate FrontTable(rs: Table, ram: Ram, free: int, n: int) {
    && |rs| == MAX_REGIONS && 0 <= n < MAX_REGIONS && 0 <= free
    && rs[0] == (if free == 0 then EMPTY else Region(ram.hi - free, free, Free))
    && (forall i :: 1 <= i <= n ==> rs[i].state.Allocated?)
    && (forall i :: n < i < MAX_REGIONS ==> rs[i] == EMPTY)
    && (0 < n ==> rs[n].End() == ram.hi - free)
  }

  lemma InitFront(ram: Ram)
    requires ram.Ok()
    ensures FrontTable(InitTable(ram), ram, ram.hi - ram.lo, 0)
  {
  }

  /** On such a table an allocation succeeds exactly when it fits the rest and a slot is left. */
  lemma FrontAlloc(h: Heap, ram: Ram, free: int, n: int, pages: int)
    requires FrontTable(h.rs, ram, free, n) && Askable(pages)
    ensures AllocRegion(h, pages).Done? <==> pages * PAGE_SIZE <= free && n + 1 < MAX_REGIONS
    ensures AllocRegion(h, pages).Done? ==>
              && AllocRegion(h, pages).value.1 == n + 1
              && FrontTable(AllocRegion(h, pages).value.0.rs, ram, free - pages * PAGE_SIZE, n + 1)
  {
    var size := pages * PAGE_SIZE;
    if size <= free {
      assert Fits(h.rs[0], size);
      if n + 1 < MAX_REGIONS {
        assert h.rs[n + 1].state.Unused?;
      }
    }
  }

  lemma FrontTake(rs: Table, ram: Ram, free: int, n: int)
    requires FrontTable(rs, ram, free, n)
    ensures TakePage(rs).Done? <==> PAGE_SIZE <= free && n + 1 < MAX_REGIONS
    ensures TakePage(rs).Done? ==> FrontTable(TakePage(rs).value, ram, free - PAGE_SIZE, n + 1)
  {
    hide FrontTable, FindFit, FindUnused, Carve;
    FrontAlloc(Heap(rs, map[]), ram, free, n, 1);
  }

  lemma {:induction false} FrontTakes(rs: Table, ram: Ram, free: int, n: int, c: nat)
    requires FrontTable(rs, ram, free, n)
    ensures TakePages(rs, c).Done? <==> c * PAGE_SIZE <= free && n + c < MAX_REGIONS
    ensures TakePages(rs, c).Done? ==> FrontTable(TakePages(rs, c).value, ram, free - c * PAGE_SIZE, n + c)
    decreases c
  {
    hide TakePage;
    if c > 0 {
      FrontTake(rs, ram, free, n);
      if TakePage(rs).Done? {
        FrontTakes(TakePage(rs).value, ram, free - PAGE_SIZE, n + 1, c - 1);
      }
    }
  }
}
