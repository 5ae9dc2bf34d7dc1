/** The region table of the page allocator (kernel/allocator.c) as a value: what it means for the
    table to tile the free RAM, and what carving, releasing and merging do to it. */
module Regions {
  import opened Machine

  const MAX_REGIONS := 128

  datatype RegionState = Unused | Free | Allocated

  datatype Region = Region(start: int, size: int, state: RegionState) {
    predicate Live() {
      !state.Unused?
    }

    function End(): int {
      start + size
    }

    predicate Covers(a: int) {
      Live() && start <= a < End()
    }
  }

  const EMPTY := Region(0, 0, Unused)

  /** `[__free_ram, __free_ram_end)`: page aligned and below 4 GiB, so no address sum wraps. */
  datatype Ram = Ram(lo: int, hi: int) {
    predicate Ok() {
      && 0 < lo < hi < TWO_32
      && lo % PAGE_SIZE == 0
      && hi % PAGE_SIZE == 0
    }
  }

  type Table = seq<Region>

  // ---- the invariant: live slots tile the RAM ----

  predicate Apart(r: Region, s: Region) {
    r.End() <= s.start || s.End() <= r.start
  }

  predicate WellPlaced(r: Region, ram: Ram) {
    && ram.lo <= r.start && r.End() <= ram.hi
    && 0 < r.size
    && r.start % PAGE_SIZE == 0
    && r.size % PAGE_SIZE == 0
  }

  ghost predicate SlotsOk(rs: Table, ram: Ram) {
    forall i :: 0 <= i < |rs| ==> if rs[i].Live() then WellPlaced(rs[i], ram) else rs[i] == EMPTY
  }

  ghost predicate Disjoint(rs: Table) {
    forall i, j :: 0 <= i < |rs| && 0 <= j < |rs| && i != j && rs[i].Live() && rs[j].Live() ==> Apart(rs[i], rs[j])
  }

  ghost predicate Covered(rs: Table, a: int) {
    exists i :: 0 <= i < |rs| && rs[i].Covers(a)
  }

  function TotalSize(rs: Table): int {
    if rs == [] then 0 else TotalSize(rs[..|rs| - 1]) + rs[|rs| - 1].size
  }

  /** The live slots cut the RAM into aligned, non-empty, pairwise disjoint pieces that leave no
      byte out; every other slot is zeroed. */
  ghost predicate Tiled(rs: Table, ram: Ram) {
    && |rs| == MAX_REGIONS
    && SlotsOk(rs, ram)
    && Disjoint(rs)
    && (forall a :: ram.lo <= a < ram.hi ==> Covered(rs, a))
    && TotalSize(rs) == ram.hi - ram.lo
  }

  /** Address `a` is in some FREE region. */
  ghost predicate FreeAt(rs: Table, a: int) {
    exists i :: 0 <= i < |rs| && rs[i].state.Free? && rs[i].Covers(a)
  }

  /** The ALLOCATED slots of `rs` other than `x` are the ALLOCATED slots of `rs1`, unmoved. */
  ghost predicate SameAllocatedBut(rs: Table, rs1: Table, x: int) {
    && |rs| == |rs1|
    && (forall k :: 0 <= k < |rs| && k != x && rs[k].state.Allocated? ==> rs1[k] == rs[k])
    && (forall k :: 0 <= k < |rs| && k != x && rs1[k].state.Allocated? ==> rs1[k] == rs[k])
  }

  ghost predicate SameAllocated(rs: Table, rs1: Table) {
    SameAllocatedBut(rs, rs1, -1)
  }

  // ---- sums and counts over the table ----

  lemma {:induction false} TotalUpdate(rs: Table, i: int, r: Region)
    requires 0 <= i < |rs|
    ensures TotalSize(rs[i := r]) == TotalSize(rs) - rs[i].size + r.size
  {
    var n := |rs| - 1;
    if i < n {
      assert rs[i := r][..n] == rs[..n][i := r];
      TotalUpdate(rs[..n], i, r);
    } else {
      assert rs[i := r][..n] == rs[..n];
    }
  }

  /** Number of slots in use. */
  function LiveCount(rs: Table): nat {
    if rs == [] then 0 else LiveCount(rs[..|rs| - 1]) + if rs[|rs| - 1].Live() then 1 else 0
  }

  lemma {:induction false} LiveUpdate(rs: Table, i: int, r: Region)
    requires 0 <= i < |rs|
    ensures LiveCount(rs[i := r]) == LiveCount(rs) - (if rs[i].Live() then 1 else 0) + if r.Live() then 1 else 0
  {
    var n := |rs| - 1;
    if i < n {
      assert rs[i := r][..n] == rs[..n][i := r];
      LiveUpdate(rs[..n], i, r);
    } else {
      assert rs[i := r][..n] == rs[..n];
    }
  }

  // ---- init_regions ----

  function InitTable(ram: Ram): (rs: Table) {
    seq(MAX_REGIONS, i => if i == 0 then Region(ram.lo, ram.hi - ram.lo, Free) else EMPTY)
  }

  lemma {:induction false} TotalOfOne(rs: Table)
    requires 0 < |rs|
    requires forall i :: 0 < i < |rs| ==> rs[i] == EMPTY
    ensures TotalSize(rs) == rs[0].size
  {
    if |rs| == 1 {
      assert TotalSize(rs[..0]) == 0;
    } else {
      TotalOfOne(rs[..|rs| - 1]);
    }
  }

  lemma InitSlots(ram: Ram, i: int)
    requires ram.Ok() && 0 <= i < MAX_REGIONS
    ensures |InitTable(ram)| == MAX_REGIONS
    ensures InitTable(ram)[i] == if i == 0 then Region(ram.lo, ram.hi - ram.lo, Free) else EMPTY
    ensures if i == 0 then WellPlaced(InitTable(ram)[i], ram) else !InitTable(ram)[i].Live()
  {
    var size := ram.hi - ram.lo;
    assert size % PAGE_SIZE == 0;
  }

  lemma InitCovered(ram: Ram, a: int)
    requires ram.Ok() && ram.lo <= a < ram.hi
    ensures Covered(InitTable(ram), a)
  {
    hide InitTable;
    InitSlots(ram, 0);
    assert InitTable(ram)[0].Covers(a);
  }

  lemma InitTiled(ram: Ram)
    requires ram.Ok()
    ensures Tiled(InitTable(ram), ram)
  {
    hide InitTable, WellPlaced, Covered, TotalSize, Apart;
    var rs := InitTable(ram);
    InitSlots(ram, 0);
    forall i | 0 <= i < |rs|
      ensures if i == 0 then rs[i] == Region(ram.lo, ram.hi - ram.lo, Free) && WellPlaced(rs[i], ram)
              else rs[i] == EMPTY
    {
      InitSlots(ram, i);
    }
    TotalOfOne(rs);
    forall a | ram.lo <= a < ram.hi ensures Covered(rs, a) {
      InitCovered(ram, a);
    }
  }

  // ---- alloc_region ----

  /** First index satisfying the search, or -1. */
  function FindUnused(rs: Table, i: nat): (r: int)
    requires i <= |rs|
    ensures r == -1 || (i <= r < |rs| && rs[r].state.Unused?)
    ensures forall k :: i <= k < (if r < 0 then |rs| else r) ==> !rs[k].state.Unused?
    decreases |rs| - i
  {
    if i == |rs| then -1 else if rs[i].state.Unused? then i else FindUnused(rs, i + 1)
  }

  predicate Fits(r: Region, size: int) {
    r.state.Free? && r.size >= size
  }

  function FindFit(rs: Table, size: int, i: nat): (r: int)
    requires i <= |rs|
    ensures r == -1 || (i <= r < |rs| && Fits(rs[r], size))
    ensures forall k :: i <= k < (if r < 0 then |rs| else r) ==> !Fits(rs[k], size)
    decreases |rs| - i
  {
    if i == |rs| then -1 else if Fits(rs[i], size) then i else FindFit(rs, size, i + 1)
  }

  /** The free region `f` less its first `size` bytes; an emptied slot becomes UNUSED. */
  function Remainder(r: Region, size: int): Region {
    if r.size == size then EMPTY else Region(r.start + size, r.size - size, r.state)
  }

  function Carve(rs: Table, f: int, n: int, size: int): (rs1: Table)
    requires 0 <= f < |rs| && 0 <= n < |rs|
    ensures |rs1| == |rs|
  {
    rs[n := Region(rs[f].start, size, Allocated)][f := Remainder(rs[f], size)]
  }

  /** A third region clear of `r` is clear of both parts of `r`. */
  lemma CarveApart(r: Region, size: int, t: Region)
    requires 0 < size <= r.size && Apart(r, t)
    ensures Apart(Region(r.start, size, Allocated), t) && Apart(t, Region(r.start, size, Allocated))
    ensures size < r.size ==> Apart(Remainder(r, size), t) && Apart(t, Remainder(r, size))
  {
  }

  lemma CarveSlots(rs: Table, ram: Ram, f: int, n: int, size: int)
    requires SlotsOk(rs, ram) && 0 <= f < |rs| && 0 <= n < |rs|
    requires rs[f].state.Free? && rs[n].state.Unused? && 0 < size <= rs[f].size && size % PAGE_SIZE == 0
    ensures SlotsOk(Carve(rs, f, n, size), ram)
  {
    hide Carve, Remainder, WellPlaced;
    CarvePlaced(rs[f], ram, size);
    forall x | 0 <= x < |rs|
      ensures var r := Carve(rs, f, n, size)[x]; if r.Live() then WellPlaced(r, ram) else r == EMPTY
    {
      CarvedSlot(rs, f, n, size, x);
    }
  }

  lemma CarvePlaced(r: Region, ram: Ram, size: int)
    requires WellPlaced(r, ram) && r.Live() && 0 < size <= r.size && size % PAGE_SIZE == 0
    ensures WellPlaced(Region(r.start, size, Allocated), ram)
    ensures if size < r.size then Remainder(r, size).Live() && WellPlaced(Remainder(r, size), ram)
            else Remainder(r, size) == EMPTY
  {
    PagesSum(r.start, size);
    PagesSum(r.size, -size);
  }

  lemma PagesSum(a: int, b: int)
    requires a % PAGE_SIZE == 0 && b % PAGE_SIZE == 0
    ensures (a + b) % PAGE_SIZE == 0
  {
  }

  lemma CarvePair(rs: Table, f: int, n: int, size: int, x: int, y: int)
    requires Disjoint(rs) && 0 <= f < |rs| && 0 <= n < |rs| && 0 <= x < |rs| && 0 <= y < |rs|
    requires x != y && y != f && y != n
    requires rs[f].state.Free? && rs[n].state.Unused? && 0 < size <= rs[f].size && rs[y].Live()
    ensures Carve(rs, f, n, size)[x].Live() ==>
              Apart(Carve(rs, f, n, size)[x], rs[y]) && Apart(rs[y], Carve(rs, f, n, size)[x])
  {
    hide Carve, Remainder, Apart;
    CarvedSlot(rs, f, n, size, x);
    assert Apart(rs[f], rs[y]);
    if x == f || x == n {
      CarveApart(rs[f], size, rs[y]);
    } else if rs[x].Live() {
      assert Apart(rs[x], rs[y]) && Apart(rs[y], rs[x]);
    }
  }

  /** The slots after carving. */
  lemma CarvedSlot(rs: Table, f: int, n: int, size: int, x: int)
    requires 0 <= f < |rs| && 0 <= n < |rs| && f != n && 0 <= x < |rs| && size <= rs[f].size
    ensures Carve(rs, f, n, size)[x] ==
            if x == f then Remainder(rs[f], size) else if x == n then Region(rs[f].start, size, Allocated) else rs[x]
    ensures Remainder(rs[f], size).Live() ==> size < rs[f].size
  {
  }

  lemma CarveDisjoint(rs: Table, f: int, n: int, size: int)
    requires Disjoint(rs) && 0 <= f < |rs| && 0 <= n < |rs|
    requires rs[f].state.Free? && rs[n].state.Unused? && 0 < size <= rs[f].size
    ensures Disjoint(Carve(rs, f, n, size))
  {
    var rs1 := Carve(rs, f, n, size);
    assert rs1[f].Live() ==> Apart(rs1[f], rs1[n]) && Apart(rs1[n], rs1[f]);
    forall x, y | 0 <= x < |rs| && 0 <= y < |rs| && x != y && rs1[x].Live() && rs1[y].Live()
      ensures Apart(rs1[x], rs1[y])
    {
      if y != f && y != n {
        CarvePair(rs, f, n, size, x, y);
      } else if x != f && x != n {
        CarvePair(rs, f, n, size, y, x);
      }
    }
  }

  lemma CarveCovers(rs: Table, f: int, n: int, size: int, a: int)
    requires 0 <= f < |rs| && 0 <= n < |rs|
    requires rs[f].state.Free? && rs[n].state.Unused? && 0 < size <= rs[f].size
    requires Covered(rs, a)
    ensures Covered(Carve(rs, f, n, size), a)
  {
    var rs1 := Carve(rs, f, n, size);
    var i :| 0 <= i < |rs| && rs[i].Covers(a);
    if i != f {
      assert rs1[i].Covers(a);
    } else if a < rs[f].start + size {
      assert rs1[n].Covers(a);
    } else {
      assert rs1[f].Covers(a);
    }
  }

  /** Carving an allocation out of a free region keeps the tiling, leaves every earlier
      allocation where it was, and hands out bytes that were free. */
  lemma CarveTiled(rs: Table, ram: Ram, f: int, n: int, size: int)
    requires Tiled(rs, ram)
    requires 0 <= f < |rs| && 0 <= n < |rs|
    requires rs[f].state.Free? && rs[n].state.Unused? && 0 < size <= rs[f].size && size % PAGE_SIZE == 0
    ensures Tiled(Carve(rs, f, n, size), ram)
    ensures SameAllocatedBut(rs, Carve(rs, f, n, size), n)
    ensures forall a :: Carve(rs, f, n, size)[n].Covers(a) ==> FreeAt(rs, a)
  {
    var rs1 := Carve(rs, f, n, size);
    CarveSlots(rs, ram, f, n, size);
    CarveDisjoint(rs, f, n, size);
    forall a | ram.lo <= a < ram.hi ensures Covered(rs1, a) {
      CarveCovers(rs, f, n, size, a);
    }
    var mid := rs[n := Region(rs[f].start, size, Allocated)];
    TotalUpdate(rs, n, Region(rs[f].start, size, Allocated));
    TotalUpdate(mid, f, Remainder(rs[f], size));
    forall a | rs1[n].Covers(a) ensures FreeAt(rs, a) {
      assert rs[f].Covers(a);
    }
  }

  // ---- merge_free_regions ----

  predicate Mergeable(rs: Table, i: int, j: int)
    requires 0 <= i < |rs| && 0 <= j < |rs|
  {
    i != j && rs[i].state.Free? && rs[j].state.Free? && rs[i].End() == rs[j].start
  }

  /** Region `i` takes over region `j`, which follows it. */
  function Absorb(rs: Table, i: int, j: int): (rs1: Table)
    requires 0 <= i < |rs| && 0 <= j < |rs|
    ensures |rs1| == |rs|
  {
    rs[i := rs[i].(size := rs[i].size + rs[j].size)][j := EMPTY]
  }

  /** The inner loop from `j` on, for a fixed `i`. */
  function MergeInto(rs: Table, i: int, j: nat): (rs1: Table)
    requires 0 <= i < |rs| && j <= |rs|
    ensures |rs1| == |rs|
    decreases |rs| - j
  {
    if j == |rs| then rs
    else MergeInto(if Mergeable(rs, i, j) then Absorb(rs, i, j) else rs, i, j + 1)
  }

  /** The outer loop from `i` on: one merge pass when started at 0. */
  function MergeFrom(rs: Table, i: nat): (rs1: Table)
    requires i <= |rs|
    ensures |rs1| == |rs|
    decreases |rs| - i
  {
    if i == |rs| then rs
    else MergeFrom(if rs[i].state.Free? then MergeInto(rs, i, 0) else rs, i + 1)
  }

  function MergePass(rs: Table): Table {
    MergeFrom(rs, 0)
  }

  /** What one absorption, and hence any number of them, leaves as it was. */
  ghost predicate SameMemory(rs: Table, rs1: Table) {
    && SameAllocated(rs, rs1)
    && (forall a :: FreeAt(rs, a) <==> FreeAt(rs1, a))
  }

  /** A third live region clear of two adjacent ones is clear of their union. */
  lemma AbsorbApart(r: Region, s: Region, t: Region)
    requires r.End() == s.start && 0 < r.size && 0 < s.size && 0 < t.size
    requires Apart(r, t) && Apart(s, t)
    ensures Apart(r.(size := r.size + s.size), t)
  {
  }

  lemma AbsorbSlots(rs: Table, ram: Ram, i: int, j: int)
    requires SlotsOk(rs, ram)
    requires 0 <= i < |rs| && 0 <= j < |rs| && Mergeable(rs, i, j)
    ensures SlotsOk(Absorb(rs, i, j), ram)
  {
    assert WellPlaced(rs[i], ram) && WellPlaced(rs[j], ram);
  }

  lemma AbsorbDisjoint(rs: Table, ram: Ram, i: int, j: int)
    requires SlotsOk(rs, ram) && Disjoint(rs)
    requires 0 <= i < |rs| && 0 <= j < |rs| && Mergeable(rs, i, j)
    ensures Disjoint(Absorb(rs, i, j))
  {
    var rs1 := Absorb(rs, i, j);
    forall y | 0 <= y < |rs| && y != i && y != j && rs[y].Live()
      ensures Apart(rs1[i], rs[y]) && Apart(rs[y], rs1[i])
    {
      AbsorbApart(rs[i], rs[j], rs[y]);
    }
  }

  /** The slot that covers `a` after the absorption, given the one before it. */
  lemma AbsorbCoveredBy(rs: Table, i: int, j: int, a: int, k: int)
    requires 0 <= i < |rs| && 0 <= j < |rs| && Mergeable(rs, i, j)
    requires 0 < rs[i].size && 0 < rs[j].size && 0 <= k < |rs| && rs[k].Covers(a)
    ensures Absorb(rs, i, j)[if k == j then i else k].Covers(a)
    ensures Absorb(rs, i, j)[if k == j then i else k].state == rs[k].state
  {
  }

  lemma AbsorbCoveredFrom(rs: Table, i: int, j: int, a: int, k: int)
    requires 0 <= i < |rs| && 0 <= j < |rs| && Mergeable(rs, i, j)
    requires 0 < rs[i].size && 0 < rs[j].size && 0 <= k < |rs| && Absorb(rs, i, j)[k].Covers(a)
    ensures rs[if k == i && a >= rs[i].End() then j else k].Covers(a)
    ensures rs[if k == i && a >= rs[i].End() then j else k].state == Absorb(rs, i, j)[k].state
  {
  }

  lemma AbsorbCovers(rs: Table, i: int, j: int, a: int)
    requires 0 <= i < |rs| && 0 <= j < |rs| && Mergeable(rs, i, j)
    requires 0 < rs[i].size && 0 < rs[j].size
    ensures Covered(rs, a) ==> Covered(Absorb(rs, i, j), a)
    ensures FreeAt(rs, a) <==> FreeAt(Absorb(rs, i, j), a)
  {
    if k :| 0 <= k < |rs| && rs[k].Covers(a) {
      AbsorbCoveredBy(rs, i, j, a, k);
    }
    if k :| 0 <= k < |rs| && rs[k].state.Free? && rs[k].Covers(a) {
      AbsorbCoveredBy(rs, i, j, a, k);
    }
    if k :| 0 <= k < |rs| && Absorb(rs, i, j)[k].state.Free? && Absorb(rs, i, j)[k].Covers(a) {
      AbsorbCoveredFrom(rs, i, j, a, k);
    }
  }

  lemma AbsorbTiled(rs: Table, ram: Ram, i: int, j: int)
    requires Tiled(rs, ram)
    requires 0 <= i < |rs| && 0 <= j < |rs| && Mergeable(rs, i, j)
    ensures Tiled(Absorb(rs, i, j), ram)
    ensures SameMemory(rs, Absorb(rs, i, j))
    ensures LiveCount(Absorb(rs, i, j)) == LiveCount(rs) - 1
  {
    var rs1 := Absorb(rs, i, j);
    AbsorbSlots(rs, ram, i, j);
    AbsorbDisjoint(rs, ram, i, j);
    forall a ensures Covered(rs, a) ==> Covered(rs1, a)
             ensures FreeAt(rs, a) <==> FreeAt(rs1, a)
    {
      AbsorbCovers(rs, i, j, a);
    }
    var grown := rs[i].(size := rs[i].size + rs[j].size);
    TotalUpdate(rs, i, grown);
    TotalUpdate(rs[i := grown], j, EMPTY);
    LiveUpdate(rs, i, grown);
    LiveUpdate(rs[i := grown], j, EMPTY);
  }

  /** Some pair of FREE regions is adjacent. */
  ghost predicate HasAdjacent(rs: Table) {
    exists i, j :: 0 <= i < |rs| && 0 <= j < |rs| && Mergeable(rs, i, j)
  }

  ghost predicate NoMergeInto(rs: Table, i: int, j: int)
    requires 0 <= i < |rs| && 0 <= j
  {
    forall k :: j <= k < |rs| ==> !Mergeable(rs, i, k)
  }

  /** Either a step changed nothing or it used up at least one slot. */
  ghost predicate SameOrFewer(rs: Table, rs1: Table) {
    rs1 == rs || LiveCount(rs1) < LiveCount(rs)
  }

  lemma SameMemoryRefl(rs: Table)
    ensures SameMemory(rs, rs)
  {
  }

  lemma SameMemoryTrans(rs: Table, rs1: Table, rs2: Table)
    requires SameMemory(rs, rs1) && SameMemory(rs1, rs2)
    ensures SameMemory(rs, rs2)
  {
  }

  lemma {:induction false} MergeIntoFacts(rs: Table, ram: Ram, i: int, j: nat)
    requires Tiled(rs, ram) && 0 <= i < |rs| && j <= |rs|
    ensures Tiled(MergeInto(rs, i, j), ram)
    ensures SameMemory(rs, MergeInto(rs, i, j))
    ensures SameOrFewer(rs, MergeInto(rs, i, j))
    ensures MergeInto(rs, i, j) == rs <==> NoMergeInto(rs, i, j)
    decreases |rs| - j
  {
    hide Tiled, SameMemory, Absorb, Mergeable, LiveCount;
    if j == |rs| {
      SameMemoryRefl(rs);
    } else {
      if Mergeable(rs, i, j) {
        AbsorbTiled(rs, ram, i, j);
        MergeIntoFacts(Absorb(rs, i, j), ram, i, j + 1);
        SameMemoryTrans(rs, Absorb(rs, i, j), MergeInto(rs, i, j));
      } else {
        MergeIntoFacts(rs, ram, i, j + 1);
      }
    }
  }

  ghost predicate NoMergeFrom(rs: Table, i: int)
    requires 0 <= i
  {
    forall k :: i <= k < |rs| ==> NoMergeInto(rs, k, 0)
  }

  lemma {:induction false} MergeFromFacts(rs: Table, ram: Ram, i: nat)
    requires Tiled(rs, ram) && i <= |rs|
    ensures Tiled(MergeFrom(rs, i), ram)
    ensures SameMemory(rs, MergeFrom(rs, i))
    ensures SameOrFewer(rs, MergeFrom(rs, i))
    ensures MergeFrom(rs, i) == rs <==> NoMergeFrom(rs, i)
    decreases |rs| - i
  {
    hide Tiled, SameMemory, MergeInto, LiveCount;
    if i == |rs| {
      SameMemoryRefl(rs);
    } else {
      if rs[i].state.Free? {
        MergeIntoFacts(rs, ram, i, 0);
        MergeFromFacts(MergeInto(rs, i, 0), ram, i + 1);
        SameMemoryTrans(rs, MergeInto(rs, i, 0), MergeFrom(rs, i));
      } else {
        MergeFromFacts(rs, ram, i + 1);
      }
    }
  }

  /** One pass keeps the tiling, every ALLOCATED slot and the exact set of free bytes; it uses up
      a slot exactly when two FREE regions are adjacent, and otherwise changes nothing. */
  lemma MergePassFacts(rs: Table, ram: Ram)
    requires Tiled(rs, ram)
    ensures Tiled(MergePass(rs), ram)
    ensures SameMemory(rs, MergePass(rs))
    ensures HasAdjacent(rs) <==> LiveCount(MergePass(rs)) < LiveCount(rs)
    ensures !HasAdjacent(rs) <==> MergePass(rs) == rs
  {
    MergeFromFacts(rs, ram, 0);
    if i, j :| 0 <= i < |rs| && 0 <= j < |rs| && Mergeable(rs, i, j) {
      assert !NoMergeInto(rs, i, 0);
    } else {
      assert NoMergeFrom(rs, 0);
    }
  }

  /** Merge passes repeated until one changes nothing. */
  ghost function Coalesced(rs: Table, ram: Ram): (rs1: Table)
    requires Tiled(rs, ram)
    decreases LiveCount(rs)
  {
    MergePassFacts(rs, ram);
    if HasAdjacent(rs) then Coalesced(MergePass(rs), ram) else rs
  }

  lemma {:induction false} CoalescedFully(rs: Table, ram: Ram)
    requires Tiled(rs, ram)
    ensures Tiled(Coalesced(rs, ram), ram)
    ensures SameMemory(rs, Coalesced(rs, ram))
    ensures !HasAdjacent(Coalesced(rs, ram))
    decreases LiveCount(rs)
  {
    MergePassFacts(rs, ram);
    if HasAdjacent(rs) {
      CoalescedFully(MergePass(rs), ram);
    }
  }

  // ---- release_pages ----

  function MarkFree(rs: Table, x: int): Table
    requires 0 <= x < |rs|
  {
    rs[x := rs[x].(state := Free)]
  }

  function Release(rs: Table, x: int): Table
    requires 0 <= x < |rs|
  {
    MergePass(MarkFree(rs, x))
  }

  lemma MarkFreeTiled(rs: Table, ram: Ram, x: int)
    requires Tiled(rs, ram)
    requires 0 <= x < |rs| && rs[x].state.Allocated?
    ensures Tiled(MarkFree(rs, x), ram)
    ensures SameAllocatedBut(rs, MarkFree(rs, x), x)
    ensures forall a :: FreeAt(MarkFree(rs, x), a) <==> FreeAt(rs, a) || rs[x].Covers(a)
  {
    var rs1 := MarkFree(rs, x);
    TotalUpdate(rs, x, rs1[x]);
    forall a ensures Covered(rs, a) ==> Covered(rs1, a)
             ensures FreeAt(rs1, a) <==> FreeAt(rs, a) || rs[x].Covers(a)
    {
      if k :| 0 <= k < |rs| && rs[k].Covers(a) {
        assert rs1[k].Covers(a);
      }
      if k :| 0 <= k < |rs| && rs[k].state.Free? && rs[k].Covers(a) {
        assert rs1[k].state.Free? && rs1[k].Covers(a);
      }
      if k :| 0 <= k < |rs| && rs1[k].state.Free? && rs1[k].Covers(a) {
        assert rs[k].Covers(a);
      }
      if rs[x].Covers(a) {
        assert rs1[x].state.Free? && rs1[x].Covers(a);
      }
    }
  }

  /** Releasing `x` frees exactly its bytes and disturbs no other allocation. */
  lemma ReleaseFacts(rs: Table, ram: Ram, x: int)
    requires Tiled(rs, ram)
    requires 0 <= x < |rs| && rs[x].state.Allocated?
    ensures Tiled(Release(rs, x), ram)
    ensures SameAllocatedBut(rs, Release(rs, x), x)
    ensures !Release(rs, x)[x].state.Allocated?
    ensures forall a :: FreeAt(Release(rs, x), a) <==> FreeAt(rs, a) || rs[x].Covers(a)
  {
    MarkFreeTiled(rs, ram, x);
    MergePassFacts(MarkFree(rs, x), ram);
  }
}
