/** What whole runs leave alone: the memory of processes that do not run, and retired object ids. */
module RunFacts {
  import opened Heap
  import opened PageTables
  import opened KernelState
  import opened Ownership
  import opened Creation
  import opened Invariant
  import opened CreateSafe
  import opened SharedMemory
  import opened Detaching
  import opened ExitSafe
  import opened Isolation
  import opened Runs

  // ---- a process that does not run is not disturbed ----

  /** The record, the pages and the contents of the pages of `q` are the same. */
  ghost predicate Undisturbed(k: Kernel, k1: Kernel, q: int) {
    && IsProc(k, q) && IsProc(k1, q)
    && k1.procs[q] == k.procs[q]
    && Own(k1, q) == Own(k, q)
    && AgreeOn(k.heap.mem, k1.heap.mem, Own(k, q))
  }

  lemma UndisturbedWalk(k: Kernel, k1: Kernel, q: int)
    requires Base(k) && Rooted(k, q) && Undisturbed(k, k1, q)
    ensures SameWalk(k.heap.mem, k1.heap.mem, k.procs[q].Root())
  {
    assert SpaceOk(k, q);
    WalkFrame(k.heap.mem, k1.heap.mem, k.procs[q].Root(), Own(k, q));
  }

  lemma ByKeeping(k: Kernel, k1: Kernel, p: int, q: int)
    requires Inv(k) && KeepsOthers(k, k1, p) && IsProc(k, q) && q != p
    ensures Undisturbed(k, k1, q)
  {
    hide Policy, ObjectsOk, ProcsOk, SpaceOk;
    OwnKept(k, k1, p, q);
  }

  lemma ByShrinking(k: Kernel, k1: Kernel, p: int, q: int)
    requires Inv(k) && Inv(k1) && Shrinks(k, k1, p) && IsProc(k, q) && q != p
    ensures Undisturbed(k, k1, q)
  {
    hide Policy, ObjectsOk, ProcsOk, SpaceOk;
    assert forall x :: x in k.procs[q].Held() ==> Holds(k1, OfProcess(q), x);
    assert Own(k1, q) == Own(k, q);
    forall ppn | ppn in Own(k, q) ensures ppn in k.heap.mem && k1.heap.mem[ppn] == k.heap.mem[ppn] {
      var x := OwnHas(k1, q, ppn);
    }
  }

  lemma BySwitching(k: Kernel, k1: Kernel, q: int)
    requires Inv(k) && IsProc(k, q) && k1 == k.(current := k1.current)
    ensures Undisturbed(k, k1, q)
  {
    hide Policy, ObjectsOk, ProcsOk, SpaceOk;
    forall ppn | ppn in Own(k, q) ensures ppn in k.heap.mem {
      var x := OwnHas(k, q, ppn);
    }
    assert Own(k1, q) == Own(k, q);
  }

  lemma ExitUndisturbs(k: Kernel, q: int)
    requires Inv(k) && Running(k) && k.current != k.idle && IsProc(k, q) && q != k.current
    ensures ExitCurrent(k).Done? && Undisturbed(k, ExitCurrent(k).value, q)
  {
    hide Base, Policy, ObjectsOk, ProcsOk, ExitCurrent, Shrinks, FreesExactly, PickNext;
    ExitFacts(k);
    var k1 := ExitCurrent(k).value;
    var k2 := k1.(current := k.current);
    PointersIrrelevant(k1, k2);
    ProcsKept(k1, k2);
    ByShrinking(k, k2, k.current, q);
    assert Own(k1, q) == Own(k2, q);
  }

  /** One step by another process changes neither the record nor any page of `q`. */
  lemma StepUndisturbs(k: Kernel, op: Op, q: int)
    requires Inv(k) && Running(k) && Step(k, op).Done? && Rooted(k, q) && q != k.current
    ensures Undisturbed(k, Step(k, op).value, q)
  {
    hide Base, Policy, ObjectsOk, CreateProcess, ShmGet, ShmAttach, ShmDetach, ExitCurrent, UserStore, Switch,
         Shrinks, KeepsOthers, Yield, AgreeOn, SameWalk, Layout, Own;
    RunningCurrent(k);
    var p, k1 := k.current, Step(k, op).value;
    match op {
      case Create(image) =>
        CreateFacts(k, image);
        assert ProcOk(k, CreateProcess(k, image).value.1);
        ByKeeping(k, k1, CreateProcess(k, image).value.1, q);
      case Get(key) =>
        ShmGetInv(k, key);
        ByKeeping(k, k1, NOBODY, q);
      case Attach(id) =>
        ShmAttachInv(k, p, id);
        ByKeeping(k, k1, p, q);
      case Detach(vaddr) =>
        ShmDetachInv(k, p, vaddr);
        ByShrinking(k, k1, p, q);
      case Exit => ExitUndisturbs(k, q);
      case YieldNow =>
        YieldInv(k);
        SwitchOnly(k);
        BySwitching(k, k1, q);
      case UserWrite(vaddr, b) =>
        UserStoreInv(k, p, vaddr, b);
        StoreTables(k, p, vaddr, b);
      case DeviceWrite(x, ppn, page) => DmaWriteInv(k, x, ppn, page);
    }
  }

  lemma SwitchOnly(k: Kernel)
    requires IsProc(k, k.current)
    ensures Switch(k) == k.(current := Switch(k).current)
  {
  }

  /** `q` is not the running process before any step of the run. */
  ghost predicate NeverRuns(k: Kernel, ops: seq<Op>, q: int)
    decreases |ops|
  {
    ops != [] ==> k.current != q && (Step(k, ops[0]).Done? ==> NeverRuns(Step(k, ops[0]).value, ops[1..], q))
  }

  lemma UndisturbedTrans(k: Kernel, k1: Kernel, k2: Kernel, q: int)
    requires Undisturbed(k, k1, q) && Undisturbed(k1, k2, q)
    ensures Undisturbed(k, k2, q)
  {
  }

  /** Whatever the other processes do, over a run in which `q` never runs its page tables and all
      its pages keep their contents, so it finds the memory it left. */
  lemma {:induction false} RunUndisturbs(k: Kernel, ops: seq<Op>, q: int)
    requires Inv(k) && Running(k) && Rooted(k, q) && Run(k, ops).Done? && NeverRuns(k, ops, q)
    ensures Undisturbed(k, Run(k, ops).value, q)
    ensures SameWalk(k.heap.mem, Run(k, ops).value.heap.mem, k.procs[q].Root())
    decreases |ops|
  {
    hide Base, Policy, ObjectsOk, ProcsOk, Running, Step, Undisturbed, SameWalk;
    if ops == [] {
      BySwitching(k, k, q);
    } else {
      StepInv(k, ops[0]);
      StepUndisturbs(k, ops[0], q);
      var k1 := Step(k, ops[0]).value;
      UndisturbedRooted(k, k1, q);
      RunUndisturbs(k1, ops[1..], q);
      UndisturbedTrans(k, k1, Run(k, ops).value, q);
    }
    UndisturbedWalk(k, Run(k, ops).value, q);
  }

  lemma UndisturbedRooted(k: Kernel, k1: Kernel, q: int)
    requires Undisturbed(k, k1, q) && Rooted(k, q)
    ensures Rooted(k1, q)
  {
  }

  // ---- retired ids ----

  /** Slot by slot, an object in use in `k1` was there in `k` under the same id, or its id is new. */
  ghost predicate IdsFrom(k: Kernel, k1: Kernel) {
    && k.nextShmId <= k1.nextShmId
    && |k1.objs| == |k.objs|
    && (forall i :: 0 <= i < |k.objs| && k1.objs[i].used ==>
          (k.objs[i].used && k1.objs[i].id == k.objs[i].id) || k1.objs[i].id >= k.nextShmId)
  }

  lemma {:induction false} CleanupIds(k: Kernel, p: int, i: nat)
    requires IsProc(k, p) && i <= |k.procs[p].shm| && ShmCleanup(k, p, i).Done?
    ensures IdsFrom(k, ShmCleanup(k, p, i).value)
    decreases |k.procs[p].shm| - i
  {
    hide ShmDetach;
    if i < |k.procs[p].shm| {
      if !k.procs[p].shm[i].used {
        CleanupIds(k, p, i + 1);
      } else {
        var va := k.procs[p].shm[i].vaddr;
        DetachIds(k, p, va);
        CleanupIds(ShmDetach(k, p, va).value.0, p, i + 1);
      }
    }
  }

  lemma DetachIds(k: Kernel, p: int, vaddr: int)
    requires IsProc(k, p) && ShmDetach(k, p, vaddr).Done?
    ensures IdsFrom(k, ShmDetach(k, p, vaddr).value.0)
  {
    hide UnmapPage, ReleasePages;
  }

  lemma StepIds(k: Kernel, op: Op)
    requires Step(k, op).Done? && ObjectsOk(k)
    ensures IdsFrom(k, Step(k, op).value)
  {
    hide CreateProcess, ShmDetach, ReleaseRegions, MapPage, AllocRegion, ObjectsOk, ShmCleanup, PickNext, Translate,
         ReleasedProcess;
    match op {
      case Detach(vaddr) => DetachIds(k, k.current, vaddr);
      case Exit => CleanupIds(SetProc(k, k.current, k.procs[k.current].(state := Exited)), k.current, 0);
      case YieldNow =>
        if k.procs[k.current].state.Exited? {
          CleanupIds(k, k.current, 0);
        }
      case _ =>
    }
  }

  /** The id was handed out and its object is gone. */
  ghost predicate Retired(k: Kernel, id: int) {
    id < k.nextShmId && FindById(k.objs, id, 0) < 0
  }

  lemma RetiredStays(k: Kernel, k1: Kernel, id: int)
    requires IdsFrom(k, k1) && Retired(k, id)
    ensures Retired(k1, id)
  {
  }

  /** An id whose object was freed never resolves again, so attaching it always gives 0. */
  lemma {:induction false} RetiredForever(k: Kernel, ops: seq<Op>, id: int, p: int)
    requires Inv(k) && Running(k) && Retired(k, id) && Run(k, ops).Done? && IsProc(k, p)
    ensures Retired(Run(k, ops).value, id)
    ensures IsProc(Run(k, ops).value, p) && ShmAttach(Run(k, ops).value, p, id) == Done((Run(k, ops).value, 0))
    decreases |ops|
  {
    hide Base, Policy, ObjectsOk, ProcsOk, Running, Step, IdsFrom, MapPage;
    if ops != [] {
      StepInv(k, ops[0]);
      StepIds(k, ops[0]);
      RetiredStays(k, Step(k, ops[0]).value, id);
      SameSlots(k, Step(k, ops[0]).value);
      RetiredForever(Step(k, ops[0]).value, ops[1..], id, p);
    }
  }

  lemma SameSlots(k: Kernel, k1: Kernel)
    requires Inv(k) && Inv(k1)
    ensures |k1.procs| == |k.procs|
  {
  }
}
