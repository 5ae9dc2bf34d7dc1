/** `release_process` and process exit (kernel/process.c): what is freed and what is not. */
module ExitSafe {
  import opened Regions
  import opened Heap
  import opened PageTables
  import opened KernelState
  import opened Ownership
  import opened Invariant
  import opened SharedMemory
  import opened Detaching

  // ---- shm_process_cleanup ----

  /** `x` is the region of an object all of whose mappings belong to `p`. */
  ghost predicate OnlyMappedBy(k: Kernel, p: int, x: int)
    requires IsProc(k, p)
  {
    exists i :: 0 <= i < |k.objs| && SoleUser(k, p, i) && k.objs[i].region == x
  }

  ghost predicate SoleUser(k: Kernel, p: int, i: int)
    requires IsProc(k, p) && 0 <= i < |k.objs|
  {
    k.objs[i].used && 0 < CountMaps(k.procs[p].shm, k.objs[i].id) == k.objs[i].refcount
  }

  ghost predicate FreesExactly(rs: Table, rs1: Table, freed: iset<int>) {
    && |rs1| == |rs|
    && (forall x :: IsAllocated(rs1, x) <==> IsAllocated(rs, x) && x !in freed)
    && (forall x :: IsAllocated(rs1, x) ==> rs1[x] == rs[x])
  }

  ghost function SoleRegions(k: Kernel, p: int): iset<int>
    requires IsProc(k, p)
  {
    iset x | OnlyMappedBy(k, p, x)
  }

  /** Detaching one mapping of `p` frees its object's region exactly when it was the last one, and
      changes for no other object whether `p` is its sole user. */
  lemma DetachSole(k: Kernel, k1: Kernel, p: int, slot: int, oi: int, i: int)
    requires ObjectsOk(k) && IsProc(k, p) && 0 <= slot < |k.procs[p].shm| && k.procs[p].shm[slot].used
    requires 0 <= oi < |k.objs| && k.objs[oi].used && k.objs[oi].id == k.procs[p].shm[slot].shmId
    requires DetachEffect(k, k1, p, slot, oi) && 0 <= i < |k.objs|
    ensures SoleUser(k1, p, i) <==> SoleUser(k, p, i) && !(i == oi && k.objs[oi].refcount <= 1)
    ensures k.objs[oi].refcount <= 1 ==> SoleUser(k, p, oi)
  {
    ObjectsUnique(k);
    assert ObjectOk(k, oi);
    DetachCounts(k, p, slot, oi, oi);
    CountMapsUpdate(k.procs[p].shm, slot, NO_MAPPING, k.objs[i].id);
    CountMapsUpdate(k.procs[p].shm, slot, NO_MAPPING, k.objs[oi].id);
    CountMapsLeRefs(k.procs, p, k.objs[oi].id);
    CountSome(k.procs[p].shm, slot, k.objs[oi].id);
    assert i != oi && k.objs[i].used ==> k.objs[i].id != k.objs[oi].id;
  }

  lemma {:induction false} CountMapsLeRefs(procs: seq<Process>, p: int, id: int)
    requires 0 <= p < |procs|
    ensures CountMaps(procs[p].shm, id) <= CountRefs(procs, id)
  {
    if p < |procs| - 1 {
      CountMapsLeRefs(procs[..|procs| - 1], p, id);
    }
  }

  lemma DetachFrees(k: Kernel, k1: Kernel, p: int, slot: int, oi: int)
    requires Inv(k) && IsProc(k, p) && 0 <= slot < |k.procs[p].shm| && k.procs[p].shm[slot].used
    requires 0 <= oi < |k.objs| && k.objs[oi].used && k.objs[oi].id == k.procs[p].shm[slot].shmId
    requires DetachEffect(k, k1, p, slot, oi)
    ensures FreesExactly(k.heap.rs, k1.heap.rs, SoleRegions(k, p) - SoleRegions(k1, p))
    ensures SoleRegions(k1, p) <= SoleRegions(k, p)
  {
    hide Base, Policy, ProcsOk, ObjectsOk, SoleUser;
    forall i | 0 <= i < |k.objs|
      ensures SoleUser(k1, p, i) <==> SoleUser(k, p, i) && !(i == oi && k.objs[oi].refcount <= 1)
    {
      DetachSole(k, k1, p, slot, oi, i);
    }
    DetachSole(k, k1, p, slot, oi, oi);
    SoleObjects(k, p);
    forall x
      ensures x in SoleRegions(k1, p) <==>
              x in SoleRegions(k, p) && !(k.objs[oi].refcount <= 1 && x == k.objs[oi].region)
    {
      if i :| 0 <= i < |k.objs| && SoleUser(k, p, i) && k.objs[i].region == x {
        assert i != oi ==> k1.objs[i] == k.objs[i];
      }
      if i :| 0 <= i < |k1.objs| && SoleUser(k1, p, i) && k1.objs[i].region == x {
        assert k1.objs[i].region == k.objs[i].region;
      }
    }
    OwnedObject(k, oi);
  }

  lemma OwnedObject(k: Kernel, oi: int)
    requires Inv(k) && 0 <= oi < |k.objs| && k.objs[oi].used
    ensures IsAllocated(k.heap.rs, k.objs[oi].region)
  {
    assert Holds(k, OfObject(oi), k.objs[oi].region);
  }

  /** Live objects have distinct regions. */
  lemma SoleObjects(k: Kernel, p: int)
    requires Inv(k) && IsProc(k, p)
    ensures forall i :: 0 <= i < |k.objs| && SoleUser(k, p, i) ==> k.objs[i].used
    ensures forall i, j :: 0 <= i < |k.objs| && 0 <= j < |k.objs| && i != j && k.objs[i].used && k.objs[j].used ==>
              k.objs[i].region != k.objs[j].region
  {
    forall i, j | 0 <= i < |k.objs| && 0 <= j < |k.objs| && i != j && k.objs[i].used && k.objs[j].used
      ensures k.objs[i].region != k.objs[j].region
    {
      assert Holds(k, OfObject(i), k.objs[i].region) && Holds(k, OfObject(j), k.objs[j].region);
    }
  }

  /** What `shm_process_cleanup` leaves: no mapping of `p`, and exactly the objects that only `p`
      had mapped are gone. */
  ghost predicate CleanupEffect(k: Kernel, k1: Kernel, p: int)
    requires IsProc(k, p)
  {
    && Inv(k1) && IsProc(k1, p)
    && Shrinks(k, k1, p)
    && k1.procs[p] == k.procs[p].(shm := k1.procs[p].shm)
    && |k1.procs[p].shm| == |k.procs[p].shm|
    && (forall s :: 0 <= s < |k1.procs[p].shm| ==> !k1.procs[p].shm[s].used)
    && FreesExactly(k.heap.rs, k1.heap.rs, SoleRegions(k, p))
  }

  lemma {:induction false} CleanupFacts(k: Kernel, p: int, i: nat)
    requires Inv(k) && Rooted(k, p) && i <= |k.procs[p].shm|
    requires forall s :: 0 <= s < i ==> !k.procs[p].shm[s].used
    ensures ShmCleanup(k, p, i).Done?
    ensures CleanupEffect(k, ShmCleanup(k, p, i).value, p)
    decreases |k.procs[p].shm| - i
  {
    hide Inv, Shrinks, DetachSlot, DetachEffect, FreesExactly, SoleRegions;
    if i == |k.procs[p].shm| {
      ShrinksSelf(k, p);
      NoSole(k, p);
    } else if !k.procs[p].shm[i].used {
      CleanupFacts(k, p, i + 1);
    } else {
      FindsSlot(k, p, i);
      var oi := DetachSlotInv(k, p, i);
      var k1 := DetachSlot(k, p, i).value;
      DetachFrees(k, k1, p, i, oi);
      EffectGives(k, k1, p, i, oi);
      CleanupFacts(k1, p, i + 1);
      var k2 := ShmCleanup(k1, p, i + 1).value;
      ShrinksTrans(k, k1, k2, p);
      FreesTrans(k.heap.rs, k1.heap.rs, k2.heap.rs, SoleRegions(k, p), SoleRegions(k1, p));
    }
  }

  lemma EffectGives(k: Kernel, k1: Kernel, p: int, slot: int, oi: int)
    requires IsProc(k, p) && 0 <= slot < |k.procs[p].shm| && 0 <= oi < |k.objs|
    requires DetachEffect(k, k1, p, slot, oi)
    ensures IsProc(k1, p) && k1.procs[p] == k.procs[p].(shm := k.procs[p].shm[slot := NO_MAPPING])
  {
  }

  /** The address recorded in slot `i` leads back to slot `i`. */
  lemma FindsSlot(k: Kernel, p: int, i: nat)
    requires Inv(k) && Rooted(k, p) && i < |k.procs[p].shm| && k.procs[p].shm[i].used
    ensures FindMapping(k.procs[p].shm, k.procs[p].shm[i].vaddr, 0) == i
  {
    hide Base, ObjectsOk, ProcsOk, Walk, ObjectPage;
    var r := FindMapping(k.procs[p].shm, k.procs[p].shm[i].vaddr, 0);
    MappedIdLive(k, p, i);
    MappedIdLive(k, p, r);
  }

  lemma NoSole(k: Kernel, p: int)
    requires IsProc(k, p) && forall s :: 0 <= s < |k.procs[p].shm| ==> !k.procs[p].shm[s].used
    ensures FreesExactly(k.heap.rs, k.heap.rs, SoleRegions(k, p))
  {
    forall i | 0 <= i < |k.objs| ensures !SoleUser(k, p, i) {
      CountNone(k.procs[p].shm, k.objs[i].id);
    }
  }

  lemma FreesTrans(rs: Table, rs1: Table, rs2: Table, all: iset<int>, rest: iset<int>)
    requires FreesExactly(rs, rs1, all - rest) && FreesExactly(rs1, rs2, rest) && rest <= all
    ensures FreesExactly(rs, rs2, all)
  {
  }

  // ---- the process's own regions ----

  /** Releasing distinct regions that nobody has on record succeeds and frees exactly those with a
      non-zero index. */
  lemma {:induction false} ReleaseRegionsFacts(k: Kernel, held: seq<int>)
    requires Base(k) && Distinct(held)
    requires forall x :: x in held ==> IsAllocated(k.heap.rs, x) && Unheld(k, x)
    ensures ReleaseRegions(k.heap, held).Done?
    ensures Base(k.(heap := ReleaseRegions(k.heap, held).value))
    ensures KeepsOthers(k, k.(heap := ReleaseRegions(k.heap, held).value), NOBODY)
    ensures ReleaseRegions(k.heap, held).value.mem == k.heap.mem
    ensures FreesExactly(k.heap.rs, ReleaseRegions(k.heap, held).value.rs, iset x | x in held && x != 0)
    decreases |held|
  {
    hide Base, KeepsOthers, Holds;
    if held == [] {
      KeepsSelf(k);
    } else {
      var x, rest := held[0], held[1..];
      assert x in held;
      if x != 0 {
        UnheldRelease(k, x);
        var h1 := ReleasePages(k.heap, x).value;
        var k1 := k.(heap := h1);
        UnheldMoves(k, k1, rest);
        forall y | y in rest ensures IsAllocated(h1.rs, y) && Unheld(k1, y) {
        }
        ReleaseRegionsFacts(k1, rest);
        KeepsAllTrans(k, k1, k.(heap := ReleaseRegions(h1, rest).value));
        OneFreed(k.heap.rs, h1.rs, x);
        var all, tail := iset y | y in held && y != 0, iset y | y in rest && y != 0;
        FreesTrans(k.heap.rs, h1.rs, ReleaseRegions(h1, rest).value.rs, all, tail);
      } else {
        ReleaseRegionsFacts(k, rest);
        assert (iset y | y in held && y != 0) == iset y | y in rest && y != 0;
      }
    }
  }

  lemma UnheldMoves(k: Kernel, k1: Kernel, xs: seq<int>)
    requires k1 == k.(heap := k1.heap) && forall x :: x in xs ==> Unheld(k, x)
    ensures forall x :: x in xs ==> Unheld(k1, x)
  {
    assert forall o, x :: Holds(k1, o, x) <==> Holds(k, o, x);
  }

  lemma KeepsAllTrans(k: Kernel, k1: Kernel, k2: Kernel)
    requires KeepsOthers(k, k1, NOBODY) && KeepsOthers(k1, k2, NOBODY)
    ensures KeepsOthers(k, k2, NOBODY)
  {
    assert forall x :: !Holds(k, OfProcess(NOBODY), x);
    KeepsTrans(k, k1, k2, NOBODY);
  }

  lemma OneFreed(rs: Table, rs1: Table, x: int)
    requires SameAllocatedBut(rs, rs1, x) && !IsAllocated(rs1, x)
    ensures FreesExactly(rs, rs1, iset{x})
  {
  }

  // ---- release_process ----

  /** Process `p` is forgotten while its regions are still marked ALLOCATED. */
  ghost function Forgotten(k: Kernel, p: int): Kernel
    requires IsProc(k, p)
  {
    SetProc(k, p, ReleasedProcess(k.procs[p]))
  }

  lemma ForgottenHolds(k: Kernel, p: int, o: Owner, x: int)
    requires Owned(k) && IsProc(k, p)
    ensures Holds(Forgotten(k, p), o, x) <==> Holds(k, o, x) && o != OfProcess(p)
  {
    assert Forgotten(k, p).procs[p].Held() == [];
  }

  lemma ForgottenBase(k: Kernel, p: int)
    requires Base(k) && IsProc(k, p)
    ensures Base(Forgotten(k, p))
    ensures forall x :: x in k.procs[p].Held() ==> IsAllocated(k.heap.rs, x) && Unheld(Forgotten(k, p), x)
    ensures Distinct(k.procs[p].Held())
    ensures Shrinks(k, Forgotten(k, p), p) && KeepsOthers(k, Forgotten(k, p), p)
  {
    var kc := Forgotten(k, p);
    forall o, x ensures Holds(kc, o, x) <==> Holds(k, o, x) && o != OfProcess(p) {
      ForgottenHolds(k, p, o, x);
    }
    assert Owned(kc);
    forall q ensures SpaceOk(kc, q) {
      assert SpaceOk(k, q);
      if IsProc(k, q) && q != p {
        assert Own(kc, q) == Own(k, q);
      }
    }
    forall x | x in k.procs[p].Held() ensures IsAllocated(k.heap.rs, x) && Unheld(kc, x) {
      assert Holds(k, OfProcess(p), x);
    }
  }

  lemma ForgottenPolicy(k: Kernel, p: int)
    requires Base(k) && Policy(k) && IsProc(k, p)
    ensures Policy(Forgotten(k, p))
  {
    hide Base, Policy, KeepsOthers, SamePages;
    var kc := Forgotten(k, p);
    ForgottenBase(k, p);
    forall q | IsProc(k, q) && q != p ensures SamePages(k, kc, q) {
      SameObjects(k, kc, q);
    }
    PolicyAssemble(k, kc, p);
  }

  lemma ForgottenObjects(k: Kernel, k2: Kernel, p: int)
    requires ObjectsOk(k) && HeldAllocated(k) && IsProc(k, p) && k2.objs == k.objs && k2.nextShmId == k.nextShmId
    requires k2.procs == k.procs[p := ReleasedProcess(k.procs[p])]
    requires forall s :: 0 <= s < |k.procs[p].shm| ==> !k.procs[p].shm[s].used
    requires forall o, x :: Holds(k, o, x) && o != OfProcess(p) && IsAllocated(k.heap.rs, x) ==>
              IsAllocated(k2.heap.rs, x) && k2.heap.rs[x] == k.heap.rs[x]
    ensures ObjectsOk(k2)
  {
    forall i | 0 <= i < |k.objs| ensures ObjectOk(k2, i) {
      assert ObjectOk(k, i);
      if k.objs[i].used {
        assert Holds(k, OfObject(i), k.objs[i].region);
        CountRefsUpdate(k.procs, p, k2.procs[p], k.objs[i].id);
        CountNone(k.procs[p].shm, k.objs[i].id);
        CountNone(k2.procs[p].shm, k.objs[i].id);
      }
    }
  }

  lemma ForgottenProcs(k: Kernel, k2: Kernel, p: int)
    requires ProcsOk(k) && IsProc(k, p) && k2.idle == k.idle && k2.procs == k.procs[p := ReleasedProcess(k.procs[p])]
    ensures ProcsOk(k2)
  {
    forall q | IsProc(k2, q) ensures ProcOk(k2, q) {
      assert ProcOk(k, q);
    }
  }

  /** What is freed when `p` goes: its recorded regions, except index 0, which reads as an empty
      entry, and the objects that only `p` had mapped. */
  ghost function FreedByExit(k: Kernel, p: int): iset<int>
    requires IsProc(k, p)
  {
    SoleRegions(k, p) + iset x | x in k.procs[p].Held() && x != 0
  }

  /** The second half of `release_process`, after the mappings are gone. */
  lemma ReleaseOwn(k: Kernel, p: int)
    requires Inv(k) && IsProc(k, p)
    requires forall s :: 0 <= s < |k.procs[p].shm| ==> !k.procs[p].shm[s].used
    ensures ReleaseRegions(k.heap, k.procs[p].Held()).Done?
    ensures var k2 := Forgotten(k, p).(heap := ReleaseRegions(k.heap, k.procs[p].Held()).value);
            && Inv(k2) && Shrinks(k, k2, p)
            && FreesExactly(k.heap.rs, k2.heap.rs, iset x | x in k.procs[p].Held() && x != 0)
  {
    hide Base, Policy, ObjectsOk, ProcsOk, KeepsOthers, SamePages, FreesExactly, Shrinks, HeldAllocated, Owned,
         ReleasedProcess;
    var kc := Forgotten(k, p);
    ForgottenBase(k, p);
    ForgottenPolicy(k, p);
    ReleaseRegionsFacts(kc, k.procs[p].Held());
    var k2 := kc.(heap := ReleaseRegions(k.heap, k.procs[p].Held()).value);
    forall q | IsProc(kc, q) ensures SamePages(kc, k2, q) {
      SameObjects(kc, k2, q);
    }
    PoliciesKept(kc, k2);
    BaseGives(k);
    OwnObjects(k, kc, k2, p);
    ForgottenProcs(k, k2, p);
    ReleaseShrinks(k, kc, k2, p);
  }

  lemma OwnObjects(k: Kernel, kc: Kernel, k2: Kernel, p: int)
    requires ObjectsOk(k) && Owned(k) && IsProc(k, p) && kc == Forgotten(k, p)
    requires k2 == kc.(heap := k2.heap) && KeepsOthers(kc, k2, NOBODY) && Base(k2)
    requires forall s :: 0 <= s < |k.procs[p].shm| ==> !k.procs[p].shm[s].used
    ensures ObjectsOk(k2)
  {
    forall o, x | Holds(k, o, x) && o != OfProcess(p) && IsAllocated(k.heap.rs, x)
      ensures IsAllocated(k2.heap.rs, x) && k2.heap.rs[x] == k.heap.rs[x]
    {
      ForgottenHolds(k, p, o, x);
    }
    ForgottenObjects(k, k2, p);
  }

  lemma ReleaseShrinks(k: Kernel, kc: Kernel, k2: Kernel, p: int)
    requires Owned(k) && IsProc(k, p) && kc == Forgotten(k, p) && Shrinks(k, kc, p)
    requires k2 == kc.(heap := k2.heap) && k2.heap.mem == kc.heap.mem && KeepsOthers(kc, k2, NOBODY) && Base(k2)
    requires Base(kc)
    ensures Shrinks(k, k2, p)
  {
    forall o, x | Holds(k2, o, x)
      ensures Holds(k, o, x) && IsAllocated(k.heap.rs, x) && k2.heap.rs[x] == k.heap.rs[x]
    {
      assert Holds(kc, o, x);
    }
  }

  /** Exit never reaches a PANIC; it frees exactly the process's regions with non-zero index and
      the shared pages that only it had mapped, and nothing of any other owner. */
  lemma ReleaseProcessFacts(k: Kernel, p: int)
    requires Inv(k) && Rooted(k, p)
    ensures ReleaseProcess(k, p).Done?
    ensures Inv(ReleaseProcess(k, p).value)
    ensures Shrinks(k, ReleaseProcess(k, p).value, p)
    ensures FreesExactly(k.heap.rs, ReleaseProcess(k, p).value.heap.rs, FreedByExit(k, p))
    ensures IsProc(ReleaseProcess(k, p).value, p) && ReleaseProcess(k, p).value.procs[p] == ReleasedProcess(k.procs[p])
  {
    hide Inv, Shrinks, FreesExactly, SoleRegions, ReleaseRegions, ShmCleanup, ReleasedProcess;
    CleanupFacts(k, p, 0);
    var k1 := ShmCleanup(k, p, 0).value;
    ReleaseOwn(k1, p);
    var k2 := Forgotten(k1, p).(heap := ReleaseRegions(k1.heap, k1.procs[p].Held()).value);
    ShrinksTrans(k, k1, k2, p);
    var own := iset x | x in k.procs[p].Held() && x != 0;
    OwnNotShared(k, p);
    assert FreedByExit(k, p) - own == SoleRegions(k, p);
    FreesTrans(k.heap.rs, k1.heap.rs, k2.heap.rs, FreedByExit(k, p), own);
    ReleasedSame(k.procs[p], k1.procs[p]);
  }

  lemma ReleasedSame(a: Process, b: Process)
    requires b == a.(shm := b.shm)
    ensures ReleasedProcess(b) == ReleasedProcess(a)
  {
  }

  lemma OwnNotShared(k: Kernel, p: int)
    requires Inv(k) && IsProc(k, p)
    ensures forall x :: x in SoleRegions(k, p) ==> x !in k.procs[p].Held()
  {
    hide Policy, ObjectsOk, ProcsOk;
    forall x | x in SoleRegions(k, p) ensures x !in k.procs[p].Held() {
      var i :| 0 <= i < |k.objs| && SoleUser(k, p, i) && k.objs[i].region == x;
      assert Holds(k, OfObject(i), x);
      assert !Holds(k, OfProcess(p), x);
    }
  }
}
