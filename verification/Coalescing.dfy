/** When a single merge pass, as `release_pages` runs it, leaves adjacent FREE regions behind. */
module Coalescing {
  import opened Machine
  import opened Regions
  import opened Heap
  import opened MergeOrder

  /** `(u, v)` is the only mergeable pair of the table. */
  ghost predicate OnlyPair(rs: Table, u: int, v: int) {
    forall a, b :: 0 <= a < |rs| && 0 <= b < |rs| && Mergeable(rs, a, b) ==> a == u && b == v
  }

  lemma {:induction false} MergeIntoUpTo(rs: Table, ram: Ram, i: int, j: nat, m: int)
    requires Tiled(rs, ram) && 0 <= i < |rs| && j <= m < |rs|
    requires forall k :: j <= k < m ==> !Mergeable(rs, i, k)
    requires Mergeable(rs, i, m)
    ensures MergeInto(rs, i, j) == MergeInto(Absorb(rs, i, m), i, m + 1)
    decreases m - j
  {
    if j < m {
      MergeIntoUpTo(rs, ram, i, j + 1, m);
    }
  }

  lemma {:induction false} MergeFromUpTo(rs: Table, ram: Ram, i: nat, m: int)
    requires Tiled(rs, ram) && i <= m < |rs|
    requires forall k :: i <= k < m ==> NoMergeInto(rs, k, 0)
    requires rs[m].state.Free?
    ensures MergeFrom(rs, i) == MergeFrom(MergeInto(rs, m, 0), m + 1)
    decreases m - i
  {
    if i < m {
      MergeIntoFacts(rs, ram, i, 0);
      MergeFromUpTo(rs, ram, i + 1, m);
    }
  }

  lemma SettledFrom(rs: Table, ram: Ram, i: nat)
    requires Tiled(rs, ram) && !HasAdjacent(rs) && i <= |rs|
    ensures MergeFrom(rs, i) == rs
  {
    MergeFromFacts(rs, ram, i);
  }

  lemma OnlyPairAbsorbed(rs: Table, ram: Ram, u: int, v: int)
    requires Tiled(rs, ram) && OnlyPair(rs, u, v)
    requires 0 <= u < |rs| && 0 <= v < |rs| && Mergeable(rs, u, v)
    ensures Tiled(Absorb(rs, u, v), ram) && !HasAdjacent(Absorb(rs, u, v))
  {
    AbsorbTiled(rs, ram, u, v);
    forall a, b | 0 <= a < |rs| && 0 <= b < |rs| ensures !Mergeable(Absorb(rs, u, v), a, b) {
      PairsAfterAbsorb(rs, ram, u, v, a, b);
    }
  }

  /** A pass that still has the first region of the only pair ahead of it joins the two. */
  lemma OnePairPass(rs: Table, ram: Ram, u: int, v: int, i: nat)
    requires Tiled(rs, ram) && OnlyPair(rs, u, v)
    requires i <= u < |rs| && 0 <= v < |rs| && Mergeable(rs, u, v)
    ensures MergeFrom(rs, i) == Absorb(rs, u, v)
    ensures !HasAdjacent(MergeFrom(rs, i))
  {
    var rs1 := Absorb(rs, u, v);
    OnlyPairAbsorbed(rs, ram, u, v);
    MergeFromUpTo(rs, ram, i, u);
    MergeIntoUpTo(rs, ram, u, 0, v);
    MergeIntoFacts(rs1, ram, u, v + 1);
    SettledFrom(rs1, ram, u + 1);
  }

  /** Both neighbours of `x` are FREE and sit in lower slots than `x`. */
  ghost predicate PeakRelease(rs: Table, x: int)
    requires 0 <= x < |rs|
  {
    exists l, r :: 0 <= l < x && 0 <= r < x && Borders(rs, l, x, r)
  }

  predicate Borders(rs: Table, l: int, x: int, r: int)
    requires 0 <= l < |rs| && 0 <= x < |rs| && 0 <= r < |rs|
  {
    rs[l].state.Free? && rs[l].End() == rs[x].start && rs[r].state.Free? && rs[x].End() == rs[r].start
  }

  lemma PairsAfterMark(rs: Table, x: int, a: int, b: int)
    requires !HasAdjacent(rs) && 0 <= x < |rs| && 0 <= a < |rs| && 0 <= b < |rs|
    ensures Mergeable(MarkFree(rs, x), a, b) ==> a == x || b == x
  {
    assert !Mergeable(rs, a, b);
  }

  /** On a fully merged table, only a FREE follower of the released `x` can stay, and it does exactly
      when `x` is a peak. */
  lemma StaysAfterMark(rs: Table, ram: Ram, x: int, y: int)
    requires Tiled(rs, ram) && !HasAdjacent(rs) && 0 <= x < |rs| && rs[x].state.Allocated? && 0 <= y < |rs|
    requires Tiled(MarkFree(rs, x), ram)
    ensures var rs1 := MarkFree(rs, x);
            Stays(rs1, ram, y) <==>
            exists l :: 0 <= l < x && y < x && Mergeable(rs1, l, x) && Mergeable(rs1, x, y)
  {
    hide Tiled, Mergeable;
    var rs1 := MarkFree(rs, x);
    var l, e := Before(rs1, x, 0), Before(rs1, y, 0);
    if e >= 0 {
      PairsAfterMark(rs, x, e, y);
      BeforeIs(rs1, ram, e, y);
    }
    BeforeIs(rs1, ram, x, y);
    if l >= 0 {
      BeforeIs(rs1, ram, l, x);
      NotBothWays(rs1, ram, l, x);
      var z := Before(rs1, l, 0);
      if z >= 0 {
        PairsAfterMark(rs, x, z, l);
      }
      assert Taken(rs1, ram, l) == |rs|;
      assert Taken(rs1, ram, x) == l;
    } else {
      assert Taken(rs1, ram, x) == |rs|;
    }
    forall a | 0 <= a < |rs| ensures Mergeable(rs1, a, x) <==> l == a {
      BeforeIs(rs1, ram, a, x);
    }
  }

  /** When the single pass of a release leaves adjacent FREE regions: on any table, exactly when some
      region stays; on a fully merged one, exactly when both neighbours of the released region are FREE
      and have lower slot numbers. */
  lemma ReleaseCoalescesIff(rs: Table, ram: Ram, x: int)
    requires Tiled(rs, ram) && 0 <= x < |rs| && rs[x].state.Allocated?
    ensures Tiled(MarkFree(rs, x), ram)
    ensures HasAdjacent(Release(rs, x)) <==> exists y :: 0 <= y < |rs| && Stays(MarkFree(rs, x), ram, y)
    ensures !HasAdjacent(rs) ==> (HasAdjacent(Release(rs, x)) <==> PeakRelease(rs, x))
  {
    hide Tiled, FreeAt, Stays, MergeFrom, HasAdjacent;
    var rs1 := MarkFree(rs, x);
    MarkFreeTiled(rs, ram, x);
    PassExactly(rs1, ram);
    if !HasAdjacent(rs) {
      forall y | 0 <= y < |rs|
        ensures Stays(rs1, ram, y) <==> exists l :: 0 <= l < x && y < x && Borders(rs, l, x, y)
      {
        StaysAfterMark(rs, ram, x, y);
        BordersAre(rs, x, y);
      }
      if y :| 0 <= y < |rs| && Stays(rs1, ram, y) {
        var l :| 0 <= l < x && y < x && Borders(rs, l, x, y);
        assert PeakRelease(rs, x);
      }
      if l, r :| 0 <= l < x && 0 <= r < x && Borders(rs, l, x, r) {
        assert Stays(rs1, ram, r);
      }
    }
  }

  lemma BordersAre(rs: Table, x: int, y: int)
    requires 0 <= x < |rs| && rs[x].state.Allocated? && 0 <= y < |rs|
    ensures forall l :: 0 <= l < x && y < x ==>
              (Borders(rs, l, x, y) <==> Mergeable(MarkFree(rs, x), l, x) && Mergeable(MarkFree(rs, x), x, y))
  {
  }

  // ---- peaks on any table ----

  /** Some FREE region has both neighbours FREE and in lower slots. */
  ghost predicate HasPeak(rs: Table) {
    exists l, x, r :: 0 <= l < x && 0 <= r < x && x < |rs| && Mergeable(rs, l, x) && Mergeable(rs, x, r)
  }

  /** A region taken before its own turn, with a follower in a lower slot, leads back to a peak. */
  lemma {:induction false} EarlyMeansPeak(rs: Table, ram: Ram, x: int, r: int)
    requires Tiled(rs, ram) && 0 <= r < x < |rs| && Mergeable(rs, x, r) && Taken(rs, ram, x) < x
    ensures HasPeak(rs)
    decreases Rank(rs, ram, x)
  {
    hide Tiled, Mergeable;
    var e := Before(rs, x, 0);
    BeforeIs(rs, ram, e, x);
    if e > x {
      EarlyMeansPeak(rs, ram, e, x);
    }
  }

  /** Whatever the table, one pass leaves adjacent FREE regions only if there was a peak. */
  lemma PassLeavesOnlyPeaks(rs: Table, ram: Ram)
    requires Tiled(rs, ram) && HasAdjacent(MergePass(rs))
    ensures HasPeak(rs)
  {
    hide Tiled, Mergeable, MergePass, HasAdjacent, HasPeak, Stays, Taken;
    PassExactly(rs, ram);
    var y :| 0 <= y < |rs| && Stays(rs, ram, y);
    StayMeansEarly(rs, ram, y);
    EarlyMeansPeak(rs, ram, Before(rs, y, 0), y);
  }

  /** A region stays only if the one before it is in a higher slot and was taken before its own turn. */
  lemma StayMeansEarly(rs: Table, ram: Ram, y: int)
    requires Tiled(rs, ram) && 0 <= y < |rs| && Stays(rs, ram, y)
    ensures var e := Before(rs, y, 0); y < e && Mergeable(rs, e, y) && Taken(rs, ram, e) < e
  {
    hide Tiled, Mergeable;
    var e := Before(rs, y, 0);
    assert e != y by {
      BeforeIs(rs, ram, e, y);
    }
    TakerWaits(rs, ram, e);
  }

  /** All of the RAM in four FREE regions that follow each other in slots 4, 1, 3, 2. */
  function FourExample(ram: Ram): Table {
    seq(MAX_REGIONS, i =>
      if i == 4 then Region(ram.lo, PAGE_SIZE, Free)
      else if i == 1 then Region(ram.lo + PAGE_SIZE, PAGE_SIZE, Free)
      else if i == 3 then Region(ram.lo + 2 * PAGE_SIZE, PAGE_SIZE, Free)
      else if i == 2 then Region(ram.lo + 3 * PAGE_SIZE, ram.hi - ram.lo - 3 * PAGE_SIZE, Free)
      else EMPTY)
  }

  lemma FourExampleTotal(ram: Ram)
    requires ram.Ok() && ram.hi - ram.lo > 3 * PAGE_SIZE
    ensures TotalSize(FourExample(ram)) == ram.hi - ram.lo
  {
    hide TotalSize;
    var rs := FourExample(ram);
    TotalTail(rs, 5);
    TotalOfFive(rs[..5]);
  }

  lemma FourExampleCovered(ram: Ram, a: int)
    requires ram.Ok() && ram.hi - ram.lo > 3 * PAGE_SIZE && ram.lo <= a < ram.hi
    ensures Covered(FourExample(ram), a)
  {
    var page := (a - ram.lo) / PAGE_SIZE;
    var x := if page == 0 then 4 else if page == 1 then 1 else if page == 2 then 3 else 2;
    assert FourExample(ram)[x].Covers(a);
  }

  lemma FourExampleTiled(ram: Ram)
    requires ram.Ok() && ram.hi - ram.lo > 3 * PAGE_SIZE
    ensures Tiled(FourExample(ram), ram)
  {
    hide TotalSize, Covered;
    FourExampleTotal(ram);
    forall a | ram.lo <= a < ram.hi ensures Covered(FourExample(ram), a) {
      FourExampleCovered(ram, a);
    }
  }

  lemma FourExamplePairs(ram: Ram, a: int, b: int)
    requires ram.Ok() && ram.hi - ram.lo > 3 * PAGE_SIZE && 0 <= a < MAX_REGIONS && 0 <= b < MAX_REGIONS
    ensures Mergeable(FourExample(ram), a, b) <==> (a == 4 && b == 1) || (a == 1 && b == 3) || (a == 3 && b == 2)
  {
  }

  /** A peak is not enough: this table has one, and one pass merges it all, because slot 4 comes last
      and takes what slot 1 had to leave. */
  lemma PeakMayMerge(ram: Ram)
    requires ram.Ok() && ram.hi - ram.lo > 3 * PAGE_SIZE
    ensures Tiled(FourExample(ram), ram) && HasPeak(FourExample(ram))
    ensures !HasAdjacent(MergePass(FourExample(ram)))
  {
    hide Tiled, FourExample, MergePass, HasAdjacent, Mergeable;
    var rs := FourExample(ram);
    FourExampleTiled(ram);
    PassExactly(rs, ram);
    assert |rs| == MAX_REGIONS by {
      FourExampleSize(ram);
    }
    forall a, b | 0 <= a < |rs| && 0 <= b < |rs|
      ensures Mergeable(rs, a, b) <==> (a == 4 && b == 1) || (a == 1 && b == 3) || (a == 3 && b == 2)
    {
      FourExamplePairs(ram, a, b);
    }
    assert Mergeable(rs, 1, 3) && Mergeable(rs, 3, 2);
    BeforeIs(rs, ram, 4, 1);
    BeforeIs(rs, ram, 1, 3);
    BeforeIs(rs, ram, 3, 2);
    assert Taken(rs, ram, 4) == |rs|;
    assert Taken(rs, ram, 1) == 4;
    assert Taken(rs, ram, 3) == 1;
    assert Taken(rs, ram, 2) == 4;
  }

  lemma FourExampleSize(ram: Ram)
    ensures |FourExample(ram)| == MAX_REGIONS
  {
  }

  lemma {:induction false} TotalTail(rs: Table, n: nat)
    requires n <= |rs| && forall i :: n <= i < |rs| ==> rs[i] == EMPTY
    ensures TotalSize(rs) == TotalSize(rs[..n])
  {
    if n == |rs| {
      assert rs[..n] == rs;
    } else {
      TotalTail(rs[..|rs| - 1], n);
      assert rs[..|rs| - 1][..n] == rs[..n];
    }
  }

  lemma TotalOfFive(rs: Table)
    requires |rs| == 5
    ensures TotalSize(rs) == rs[0].size + rs[1].size + rs[2].size + rs[3].size + rs[4].size
  {
    assert rs[..4][..3] == rs[..3] && rs[..3][..2] == rs[..2] && rs[..2][..1] == rs[..1] && rs[..1][..0] == [];
    assert TotalSize(rs[..1]) == rs[0].size && TotalSize(rs[..2]) == rs[0].size + rs[1].size;
    assert TotalSize(rs[..3]) == TotalSize(rs[..2]) + rs[2].size;
    assert TotalSize(rs[..4]) == TotalSize(rs[..3]) + rs[3].size;
  }

  /** Carving never creates adjacent FREE regions, so a table stays fully merged until the first
      release that is a peak. */
  lemma CarveKeepsCoalesced(rs: Table, ram: Ram, f: int, n: int, size: int)
    requires Tiled(rs, ram) && !HasAdjacent(rs)
    requires 0 <= f < |rs| && 0 <= n < |rs|
    requires rs[f].state.Free? && rs[n].state.Unused? && 0 < size <= rs[f].size
    ensures !HasAdjacent(Carve(rs, f, n, size))
  {
    var rs1 := Carve(rs, f, n, size);
    forall a, b | 0 <= a < |rs| && 0 <= b < |rs| ensures !Mergeable(rs1, a, b) {
      if a != f && rs[a].Live() {
        assert Apart(rs[a], rs[f]);
      }
      assert !Mergeable(rs, a, b);
    }
  }

  /** RAM cut into a FREE page in slot 1, an ALLOCATED page in slot 2 and the FREE rest in slot 0. */
  function PeakExample(ram: Ram): Table {
    seq(MAX_REGIONS, i =>
      if i == 0 then Region(ram.lo + 2 * PAGE_SIZE, ram.hi - ram.lo - 2 * PAGE_SIZE, Free)
      else if i == 1 then Region(ram.lo, PAGE_SIZE, Free)
      else if i == 2 then Region(ram.lo + PAGE_SIZE, PAGE_SIZE, Allocated)
      else EMPTY)
  }

  /** It is where two one-page allocations after boot and the release of the first one lead. */
  lemma PeakReached(ram: Ram, mem: Memory)
    requires ram.Ok() && ram.hi - ram.lo > 3 * PAGE_SIZE
    ensures var a1 := AllocRegion(Heap(InitTable(ram), mem), 1);
            && a1.Done? && a1.value.1 == 1
            && var a2 := AllocRegion(a1.value.0, 1);
            && a2.Done? && a2.value.1 == 2
            && var r1 := ReleasePages(a2.value.0, 1);
            && r1.Done? && r1.value.rs == PeakExample(ram)
  {
    hide MergeFrom, Tiled, HasAdjacent;
    var h0 := Heap(InitTable(ram), mem);
    assert FindFit(h0.rs, PAGE_SIZE, 0) == 0 && FindUnused(h0.rs, 0) == FindUnused(h0.rs, 1) == 1;
    var h1 := AllocRegion(h0, 1).value.0;
    assert FindFit(h1.rs, PAGE_SIZE, 0) == 0;
    assert FindUnused(h1.rs, 0) == FindUnused(h1.rs, 1) == FindUnused(h1.rs, 2) == 2;
    var h2 := AllocRegion(h1, 1).value.0;
    assert MarkFree(h2.rs, 1) == PeakExample(ram);
    PeakTiled(ram);
    PeakSettled(ram);
    MergePassFacts(PeakExample(ram), ram);
  }

  lemma PeakTiled(ram: Ram)
    requires ram.Ok() && ram.hi - ram.lo > 3 * PAGE_SIZE
    ensures Tiled(PeakExample(ram), ram)
  {
    var rs := PeakExample(ram);
    TotalOfThree(rs);
    forall a | ram.lo <= a < ram.hi ensures Covered(rs, a) {
      assert rs[if a < ram.lo + PAGE_SIZE then 1 else if a < ram.lo + 2 * PAGE_SIZE then 2 else 0].Covers(a);
    }
  }

  lemma PeakSettled(ram: Ram)
    requires ram.Ok() && ram.hi - ram.lo > 3 * PAGE_SIZE
    ensures !HasAdjacent(PeakExample(ram)) && PeakRelease(PeakExample(ram), 2)
  {
    var rs := PeakExample(ram);
    assert Borders(rs, 1, 2, 0);
  }

  /** One pass does not always merge everything: two allocations and two releases after boot leave two
      adjacent FREE regions. */
  lemma OnePassIsNotEnough(ram: Ram, mem: Memory)
    requires ram.Ok() && ram.hi - ram.lo > 3 * PAGE_SIZE
    ensures var a1 := AllocRegion(Heap(InitTable(ram), mem), 1);
            && a1.Done?
            && var a2 := AllocRegion(a1.value.0, 1);
            && a2.Done?
            && var r1 := ReleasePages(a2.value.0, a1.value.1);
            && r1.Done?
            && var r2 := ReleasePages(r1.value, a2.value.1);
            && r2.Done? && HasAdjacent(r2.value.rs)
  {
    hide Tiled, HasAdjacent, Release, PeakRelease, AllocRegion;
    PeakReached(ram, mem);
    PeakTiled(ram);
    PeakSettled(ram);
    ReleaseCoalescesIff(PeakExample(ram), ram, 2);
  }

  lemma {:induction false} TotalOfThree(rs: Table)
    requires 2 < |rs|
    requires forall i :: 2 < i < |rs| ==> rs[i] == EMPTY
    ensures TotalSize(rs) == rs[0].size + rs[1].size + rs[2].size
  {
    if |rs| == 3 {
      assert TotalSize(rs) == TotalSize(rs[..2]) + rs[2].size;
      assert TotalSize(rs[..2]) == TotalSize(rs[..2][..1]) + rs[1].size;
      TotalOfOne(rs[..2][..1]);
    } else {
      TotalOfThree(rs[..|rs| - 1]);
    }
  }
}
