/** Whole runs: boot, then any sequence of kernel calls, yields, exits, user-mode stores and writes by
    devices. */
module Runs {
  import opened Machine
  import opened Regions
  import opened Heap
  import opened Room
  import opened PageTables
  import opened KernelState
  import opened Ownership
  import opened Creation
  import opened Invariant
  import opened Capacity
  import opened CreateSafe
  import opened SharedMemory
  import opened Detaching
  import opened ExitSafe
  import opened Isolation

  // ---- boot ----

  ghost predicate Bootable(ram: Ram, mem: Memory) {
    && ram.Ok() && KERNEL_BASE < ram.lo
    && (forall p :: ram.lo / PAGE_SIZE <= p < ram.hi / PAGE_SIZE ==> p in mem)
  }

  lemma BlankInv(ram: Ram, mem: Memory)
    requires Bootable(ram, mem)
    ensures Inv(Blank(ram, mem))
  {
    var k := Blank(ram, mem);
    InitTiled(ram);
    forall o, x ensures !Holds(k, o, x) {
      if o.OfProcess? && IsProc(k, o.p) {
        assert k.procs[o.p].Held() == [];
      }
    }
    forall p | IsProc(k, p) ensures SpacePolicy(k, p) && ProcOk(k, p) {
    }
    forall i | 0 <= i < |k.objs| ensures ObjectOk(k, i) {
    }
  }

  lemma DeviceHolds(k: Kernel, h1: Heap, n: int, pages: int, o: Owner, x: int)
    requires Owned(k) && Askable(pages) && Allocates(k.heap, h1, n, pages) && HeapOk(h1, k.ram)
    ensures Holds(k.(heap := h1, devices := k.devices + [n]), o, x) <==> Holds(k, o, x) || (o == OfDevice && x == n)
    ensures !Holds(k, o, n)
    ensures Holds(k, o, x) ==> h1.rs[x] == k.heap.rs[x] && Apart(k.heap.rs[x], h1.rs[n])
  {
    if Holds(k, o, x) {
      assert h1.rs[x] == k.heap.rs[x];
      assert Apart(h1.rs[x], h1.rs[n]);
    }
  }

  /** The pages zeroed by an allocation lie in the region it returns. */
  lemma ZeroedInRegion(h: Heap, h1: Heap, ram: Ram, n: int, pages: int, ppn: int)
    requires Allocates(h, h1, n, pages) && HeapOk(h1, ram) && Askable(pages) && ppn in h.mem
    ensures InRegion(h1.rs[n], ppn) || h1.mem[ppn] == h.mem[ppn]
  {
    AllocatedInRam(h1, ram, n);
  }

  lemma DeviceBase(k: Kernel, h1: Heap, n: int, pages: int)
    requires Base(k) && Askable(pages) && Allocates(k.heap, h1, n, pages) && HeapOk(h1, k.ram)
    ensures Base(k.(heap := h1, devices := k.devices + [n]))
    ensures forall q :: IsProc(k, q) && |k.procs[q].shm| == PROC_SHM_MAX && SpacePolicy(k, q) ==>
              SpacePolicy(k.(heap := h1, devices := k.devices + [n]), q)
    ensures forall o, x :: Holds(k, o, x) ==> h1.rs[x] == k.heap.rs[x]
  {
    var k1 := k.(heap := h1, devices := k.devices + [n]);
    forall o, x
      ensures Holds(k1, o, x) <==> Holds(k, o, x) || (o == OfDevice && x == n)
      ensures !Holds(k, o, n)
      ensures Holds(k, o, x) ==> h1.rs[x] == k.heap.rs[x] && Apart(k.heap.rs[x], h1.rs[n])
    {
      DeviceHolds(k, h1, n, pages, o, x);
    }
    assert Owned(k1);
    var kd := k1.(devices := k.devices);
    assert KeepsOthers(k, kd, NOBODY) by {
      forall o, x, ppn | Holds(k, o, x) && InRegion(k.heap.rs[x], ppn) && ppn in k.heap.mem
        ensures h1.mem[ppn] == k.heap.mem[ppn]
      {
        ZeroedInRegion(k.heap, h1, k.ram, n, pages, ppn);
      }
    }
    DeviceSpaces(k, kd, k1);
  }

  lemma DeviceSpaces(k: Kernel, kd: Kernel, k1: Kernel)
    requires Base(k) && KeepsOthers(k, kd, NOBODY) && kd == k1.(devices := k.devices)
    requires k1 == k.(heap := k1.heap, devices := k1.devices)
    ensures forall q :: SpaceOk(k1, q)
    ensures forall q :: IsProc(k, q) && |k.procs[q].shm| == PROC_SHM_MAX && SpacePolicy(k, q) ==> SpacePolicy(k1, q)
  {
    hide Base, KeepsOthers, SpacePolicy, Walk;
    forall q ensures SpaceOk(k1, q) {
      if IsProc(k, q) {
        OthersKept(k, kd, NOBODY, q);
        assert Own(k1, q) == Own(kd, q);
      }
    }
    forall q | IsProc(k, q) && |k.procs[q].shm| == PROC_SHM_MAX && SpacePolicy(k, q) ensures SpacePolicy(k1, q) {
      SameObjects(k, kd, q);
      PolicyKept(k, kd, NOBODY, q);
      PolicyOfRecord(kd, k1, q);
    }
  }

  lemma DeviceInv(k: Kernel, pages: int)
    requires Inv(k) && Askable(pages) && AllocDevice(k, pages).Done?
    ensures Inv(AllocDevice(k, pages).value)
  {
    hide Base, SpacePolicy, Allocates, HeapOk;
    var (h1, n) := AllocRegion(k.heap, pages).value;
    var k1 := AllocDevice(k, pages).value;
    DeviceAllocFacts(k, pages);
    DeviceBase(k, h1, n, pages);
    DeviceRest(k, k1);
    forall q | IsProc(k1, q) ensures |k1.procs[q].shm| == PROC_SHM_MAX && SpacePolicy(k1, q) {
      PolicyGives(k, q);
    }
  }

  lemma DeviceAllocFacts(k: Kernel, pages: int)
    requires Base(k) && Askable(pages) && AllocRegion(k.heap, pages).Done?
    ensures HeapOk(AllocRegion(k.heap, pages).value.0, k.ram)
    ensures Allocates(k.heap, AllocRegion(k.heap, pages).value.0, AllocRegion(k.heap, pages).value.1, pages)
  {
    AllocFacts(k.heap, k.ram, pages);
  }

  lemma DeviceRest(k: Kernel, k1: Kernel)
    requires ObjectsOk(k) && ProcsOk(k) && k1 == k.(heap := k1.heap, devices := k1.devices)
    requires Base(k) && Base(k1)
    requires forall o, x :: Holds(k, o, x) && 0 <= x < |k.heap.rs| && x < |k1.heap.rs| ==> k1.heap.rs[x] == k.heap.rs[x]
    ensures ObjectsOk(k1) && ProcsOk(k1)
  {
    ProcsKept(k, k1);
    forall i | 0 <= i < |k.objs| ensures ObjectOk(k1, i) {
      assert ObjectOk(k, i);
      if k.objs[i].used {
        assert Holds(k, OfObject(i), k.objs[i].region);
      }
    }
  }

  lemma {:induction false} DevicesInv(k: Kernel, sizes: seq<nat>)
    requires Inv(k) && AllAskable(sizes) && AllocDevices(k, sizes).Done?
    ensures Inv(AllocDevices(k, sizes).value)
    ensures AllocDevices(k, sizes).value.idle == k.idle && AllocDevices(k, sizes).value.procs == k.procs
    decreases |sizes|
  {
    hide Inv;
    if sizes != [] {
      DeviceInv(k, sizes[0]);
      DevicesInv(AllocDevice(k, sizes[0]).value, sizes[1..]);
    }
  }

  /** Labels, the running process and the idle process are not part of ownership or policy. */
  lemma RelabelInv(k: Kernel, p: int, pid: int, state: ProcState)
    requires Inv(k) && IsProc(k, p)
    ensures Base(Relabelled(k, p, pid, state)) && Policy(Relabelled(k, p, pid, state))
    ensures ObjectsOk(Relabelled(k, p, pid, state))
  {
    hide Base, Policy, ObjectsOk, KeepsOthers;
    var k1 := Relabelled(k, p, pid, state);
    Relabel(k, p, pid, state, []);
    RelabelPolicy(k, k1, p, pid, state);
    RelabelObjects(k, k1, p, pid, state);
  }

  lemma RelabelPolicy(k: Kernel, k1: Kernel, p: int, pid: int, state: ProcState)
    requires Base(k) && Policy(k) && IsProc(k, p) && k1 == Relabelled(k, p, pid, state) && KeepsOthers(k, k1, p)
    ensures Policy(k1)
  {
    hide Base, Policy, KeepsOthers, SamePages, SpacePolicy;
    forall q | IsProc(k, q) && q != p ensures SamePages(k, k1, q) {
      SameObjects(k, k1, q);
    }
    PolicyGives(k, p);
    PolicyOfRecord(k, k1, p);
    PolicyAssemble(k, k1, p);
  }

  lemma RelabelObjects(k: Kernel, k1: Kernel, p: int, pid: int, state: ProcState)
    requires ObjectsOk(k) && IsProc(k, p) && k1 == Relabelled(k, p, pid, state)
    ensures ObjectsOk(k1)
  {
    forall i | 0 <= i < |k.objs| ensures ObjectOk(k1, i) {
      assert ObjectOk(k, i);
      CountRefsUpdate(k.procs, p, k1.procs[p], k.objs[i].id);
    }
  }

  /** Which process runs and which is the idle one matters to no part of the invariant but pids. */
  lemma PointersIrrelevant(k: Kernel, k1: Kernel)
    requires Base(k) && Policy(k) && ObjectsOk(k) && k1 == k.(current := k1.current, idle := k1.idle)
    ensures Base(k1) && Policy(k1) && ObjectsOk(k1)
  {
    hide Walk, DeviceVpn, ObjectPage, CountRefs;
    assert forall o, x :: Holds(k1, o, x) <==> Holds(k, o, x);
    assert Owned(k1);
    forall q ensures SpaceOk(k1, q) {
      assert SpaceOk(k, q);
      if IsProc(k, q) {
        assert Own(k1, q) == Own(k, q);
      }
    }
    forall i | 0 <= i < |k.objs| ensures ObjectOk(k1, i) {
      assert ObjectOk(k, i);
    }
    forall q | IsProc(k1, q) ensures |k1.procs[q].shm| == PROC_SHM_MAX && SpacePolicy(k1, q) {
      assert SpacePolicy(k, q);
      PolicyOfRecord(k, k1, q);
    }
  }

  lemma InitProcessesInv(k: Kernel)
    requires Inv(k) && !IsProc(k, k.idle)
    ensures InitProcesses(k).Done? <==> CanCreate(k, [])
    ensures InitProcesses(k).Done? ==> Inv(InitProcesses(k).value) && Running(InitProcesses(k).value)
  {
    hide Base, Policy, ObjectsOk, CreateProcess, Layout, KeepsOthers, CanCreate;
    CreateFacts(k, []);
    if CreateProcess(k, []).Done? {
      CreateInv(k, []);
      var (k1, p) := CreateProcess(k, []).value;
      RelabelInv(k1, p, 0, Runnable);
      var k2 := Relabelled(k1, p, 0, Runnable);
      var k3 := k2.(current := p, idle := p);
      PointersIrrelevant(k2, k3);
      InitProcs(k1, k3, p);
    }
  }

  lemma InitProcs(k1: Kernel, k3: Kernel, p: int)
    requires ProcsOk(k1) && IsProc(k1, p) && !IsProc(k1, k1.idle) && k1.procs[p].state.Runnable?
    requires k3.procs == k1.procs[p := k1.procs[p].(pid := 0, state := Runnable)] && k3.idle == p
    ensures ProcsOk(k3)
  {
    forall q | IsProc(k3, q) ensures ProcOk(k3, q) {
      assert ProcOk(k1, q);
    }
  }

  function Sum(sizes: seq<nat>): nat {
    if sizes == [] then 0 else sizes[0] + Sum(sizes[1..])
  }

  /** Every driver asks for at least one page, and for less than 4 GB. */
  ghost predicate AllAskable(sizes: seq<nat>) {
    forall i :: 0 <= i < |sizes| ==> Askable(sizes[i])
  }

  /** The drivers get their pages exactly when the RAM and the region table hold them all. */
  lemma {:induction false} DevicesFront(k: Kernel, sizes: seq<nat>, free: int, n: int)
    requires FrontTable(k.heap.rs, k.ram, free, n) && AllAskable(sizes)
    ensures AllocDevices(k, sizes).Done? <==> Sum(sizes) * PAGE_SIZE <= free && n + |sizes| < MAX_REGIONS
    ensures AllocDevices(k, sizes).Done? ==>
              && FrontTable(AllocDevices(k, sizes).value.heap.rs, k.ram, free - Sum(sizes) * PAGE_SIZE, n + |sizes|)
              && AllocDevices(k, sizes).value.ram == k.ram
    decreases |sizes|
  {
    hide FrontTable, AllocRegion;
    FrontBounds(k.heap.rs, k.ram, free, n);
    if sizes != [] {
      FrontAlloc(k.heap, k.ram, free, n, sizes[0]);
      if AllocDevice(k, sizes[0]).Done? {
        DevicesFront(AllocDevice(k, sizes[0]).value, sizes[1..], free - sizes[0] * PAGE_SIZE, n + 1);
      }
    }
  }

  lemma FrontBounds(rs: Table, ram: Ram, free: int, n: int)
    requires FrontTable(rs, ram, free, n)
    ensures 0 <= free && 0 <= n < MAX_REGIONS
  {
  }

  /** The RAM and the region table hold the device buffers and the idle process, whose tables fit its
      record. */
  predicate BootFits(ram: Ram, sizes: seq<nat>) {
    var need := Needed(ram.hi, []);
    && (Sum(sizes) + need) * PAGE_SIZE <= ram.hi - ram.lo
    && |sizes| + need < MAX_REGIONS
    && 0 <= need <= PROC_REGION_MAX
  }

  /** The kernel comes up exactly when everything fits, in a state where all tables agree. */
  lemma BootInv(ram: Ram, mem: Memory, sizes: seq<nat>)
    requires Bootable(ram, mem) && AllAskable(sizes)
    ensures Boot(ram, mem, sizes).Done? <==> BootFits(ram, sizes)
    ensures Boot(ram, mem, sizes).Done? ==> Inv(Boot(ram, mem, sizes).value) && Running(Boot(ram, mem, sizes).value)
  {
    hide Inv, AllocDevices, InitProcesses, FrontTable, TakePages;
    var k := Blank(ram, mem);
    BlankInv(ram, mem);
    InitFront(ram);
    DevicesFront(k, sizes, ram.hi - ram.lo, 0);
    if AllocDevices(k, sizes).Done? {
      DevicesInv(k, sizes);
      var k1 := AllocDevices(k, sizes).value;
      InitProcessesInv(k1);
      BootCanCreate(ram, k1, sizes);
    }
  }

  lemma BootCanCreate(ram: Ram, k: Kernel, sizes: seq<nat>)
    requires FrontTable(k.heap.rs, ram, ram.hi - ram.lo - Sum(sizes) * PAGE_SIZE, |sizes|) && k.ram == ram
    requires k.procs == seq(PROCS_MAX, _ => BlankProcess())
    ensures CanCreate(k, []) <==> BootFits(ram, sizes)
  {
    hide FrontTable, TakePages, Needed;
    var need := Needed(ram.hi, []);
    assert k.procs[0].state.ProcUnused?;
    if 0 <= need {
      FrontTakes(k.heap.rs, ram, ram.hi - ram.lo - Sum(sizes) * PAGE_SIZE, |sizes|, need);
    }
  }

  // ---- yield and exit ----

  lemma {:induction false} PickChoice(procs: seq<Process>, pid: int, i: nat, fallback: int)
    requires i <= PROCS_MAX
    ensures var s := PickNext(procs, pid, i, fallback);
            s == fallback || (0 <= s < |procs| && CanRun(procs[s]))
    decreases PROCS_MAX - i
  {
    if i < PROCS_MAX {
      PickChoice(procs, pid, i + 1, fallback);
    }
  }

  lemma SwitchInv(k: Kernel)
    requires Inv(k) && IsProc(k, k.current) && IsProc(k, k.idle) && k.procs[k.idle].state.Runnable?
    ensures Inv(Switch(k)) && Running(Switch(k))
  {
    hide Base, Policy, ObjectsOk;
    PickChoice(k.procs, k.procs[k.current].pid, 0, k.idle);
    PointersIrrelevant(k, Switch(k));
    ProcsKept(k, Switch(k));
  }

  lemma YieldInv(k: Kernel)
    requires Inv(k) && Running(k)
    ensures Yield(k) == Done(Switch(k))
    ensures Inv(Switch(k)) && Running(Switch(k))
  {
    hide Inv, Switch;
    SwitchInv(k);
  }

  lemma MarkExited(k: Kernel, p: int)
    requires Inv(k) && IsProc(k, p) && k.procs[p].state.Runnable?
    ensures Inv(SetProc(k, p, k.procs[p].(state := Exited)))
  {
    hide Base, Policy, ObjectsOk;
    var k1 := Relabelled(k, p, k.procs[p].pid, Exited);
    RelabelInv(k, p, k.procs[p].pid, Exited);
    forall q | IsProc(k1, q) ensures ProcOk(k1, q) {
      assert ProcOk(k, q);
    }
  }

  /** SYS_EXIT of a user process: its slot becomes unused, everything it alone used is freed, and
      the scan for the next process starts at slot 0. */
  lemma ExitFacts(k: Kernel)
    requires Inv(k) && Running(k) && k.current != k.idle
    ensures ExitCurrent(k).Done?
    ensures Inv(ExitCurrent(k).value) && Running(ExitCurrent(k).value)
    ensures ExitCurrent(k).value.procs[k.current].state.ProcUnused?
    ensures FreesExactly(k.heap.rs, ExitCurrent(k).value.heap.rs, FreedByExit(k, k.current))
    ensures Shrinks(k, ExitCurrent(k).value.(current := k.current), k.current)
    ensures ExitCurrent(k).value.current == PickNext(ExitCurrent(k).value.procs, 0, 0, k.idle)
  {
    hide Inv, FreesExactly, Shrinks, FreedByExit, ReleaseProcess, ReleasedProcess, PickNext;
    var p := k.current;
    var k1 := SetProc(k, p, k.procs[p].(state := Exited));
    MarkExited(k, p);
    InvRooted(k1, p);
    ReleaseProcessFacts(k1, p);
    var k2 := ReleaseProcess(k1, p).value;
    ReleasedLabels(k1.procs[p]);
    ShrinksGives(k1, k2, p);
    assert k2.current == p && k2.idle == k.idle;
    SwitchInv(k2);
    ExitSameFreed(k, k1, p);
    ExitShrinks(k, k1, k2, p);
    assert ExitCurrent(k).value == Switch(k2);
  }

  lemma InvRooted(k: Kernel, p: int)
    requires Inv(k) && IsProc(k, p) && !k.procs[p].state.ProcUnused?
    ensures Rooted(k, p)
  {
    assert ProcOk(k, p);
  }

  lemma ReleasedLabels(proc: Process)
    ensures ReleasedProcess(proc).state.ProcUnused? && ReleasedProcess(proc).pid == 0
  {
  }

  lemma ShrinksGives(k: Kernel, k1: Kernel, p: int)
    requires Shrinks(k, k1, p)
    ensures |k1.procs| == |k.procs| && k1.current == k.current && k1.idle == k.idle
    ensures forall q :: IsProc(k, q) && q != p ==> k1.procs[q] == k.procs[q]
  {
  }

  lemma ExitSameFreed(k: Kernel, k1: Kernel, p: int)
    requires IsProc(k, p) && k1 == SetProc(k, p, k.procs[p].(state := Exited))
    ensures FreedByExit(k1, p) == FreedByExit(k, p)
  {
    hide CountMaps;
    forall x ensures OnlyMappedBy(k1, p, x) <==> OnlyMappedBy(k, p, x) {
      if i :| 0 <= i < |k.objs| && SoleUser(k, p, i) && k.objs[i].region == x {
        assert SoleUser(k1, p, i);
      }
      if i :| 0 <= i < |k1.objs| && SoleUser(k1, p, i) && k1.objs[i].region == x {
        assert SoleUser(k, p, i);
      }
    }
  }

  lemma ExitShrinks(k: Kernel, k1: Kernel, k2: Kernel, p: int)
    requires IsProc(k, p) && k1 == SetProc(k, p, k.procs[p].(state := Exited)) && Shrinks(k1, k2, p) && p == k.current
    requires IsProc(k2, k2.current)
    ensures Shrinks(k, Switch(k2).(current := p), p)
  {
    var k3 := Switch(k2).(current := p);
    assert forall o, x :: Holds(k1, o, x) <==> Holds(k, o, x);
    assert forall o, x :: Holds(k3, o, x) <==> Holds(k2, o, x);
  }

  // ---- runs ----

  datatype Op =
    | Create(image: seq<Byte>)
    | Get(key: int)
    | Attach(id: int)
    | Detach(vaddr: int)
    | Exit
    | YieldNow
    | UserWrite(vaddr: int, b: Byte)
    | DeviceWrite(x: int, ppn: int, page: Page)

  /** One step of the machine. Traps from user mode come from the running process, which is not the
      idle one: idle only ever runs kernel code. */
  function Step(k: Kernel, op: Op): Outcome<Kernel> {
    if !IsProc(k, k.current) then Stopped(NoUserProcess)
    else if op.Create? then
      var (k1, _) :- CreateProcess(k, op.image);
      Done(k1)
    else if op.YieldNow? then Yield(k)
    else if op.DeviceWrite? then Done(DmaWrite(k, op.x, op.ppn, op.page))
    else if k.current == k.idle then Stopped(NoUserProcess)
    else match op
      case Get(key) =>
        var (k1, _) :- ShmGet(k, key);
        Done(k1)
      case Attach(id) =>
        var (k1, _) :- ShmAttach(k, k.current, id);
        Done(k1)
      case Detach(vaddr) =>
        var (k1, _) :- ShmDetach(k, k.current, vaddr);
        Done(k1)
      case Exit => ExitCurrent(k)
      case UserWrite(vaddr, b) => UserStore(k, k.current, vaddr, b)
  }

  function Run(k: Kernel, ops: seq<Op>): Outcome<Kernel>
    decreases |ops|
  {
    if ops == [] then Done(k)
    else
      var k1 :- Step(k, ops[0]);
      Run(k1, ops[1..])
  }

  lemma RunningCurrent(k: Kernel)
    requires Inv(k) && Running(k)
    ensures Rooted(k, k.current) && Rooted(k, k.idle) && IdleOk(k)
  {
    InvRooted(k, k.current);
    InvRooted(k, k.idle);
  }

  /** Steps that only relabel nothing leave the running and the idle process alone. */
  lemma StillRunning(k: Kernel, k1: Kernel)
    requires Running(k) && |k1.procs| == |k.procs| && k1.current == k.current && k1.idle == k.idle
    requires forall p :: IsProc(k, p) && k.procs[p].state.Runnable? ==> k1.procs[p].state.Runnable?
    ensures Running(k1)
  {
  }

  /** Every step keeps the invariant. */
  lemma StepInv(k: Kernel, op: Op)
    requires Inv(k) && Running(k) && Step(k, op).Done?
    ensures Inv(Step(k, op).value) && Running(Step(k, op).value)
  {
    hide Inv, CreateProcess, ShmGet, ShmAttach, ShmDetach, ExitCurrent, UserStore, Switch, Shrinks, KeepsOthers,
         FreesExactly, Yield;
    RunningCurrent(k);
    var p, k1 := k.current, Step(k, op).value;
    match op {
      case Create(image) =>
        CreateInv(k, image);
        CreateFacts(k, image);
        StillRunning(k, k1);
      case Get(key) =>
        ShmGetInv(k, key);
        GetTables(k, key);
        StillRunning(k, k1);
      case Attach(id) =>
        ShmAttachInv(k, p, id);
        AttachLabels(k, p, id);
        StillRunning(k, k1);
      case Detach(vaddr) =>
        ShmDetachInv(k, p, vaddr);
        DetachLabels(k, p, vaddr);
        StillRunning(k, k1);
      case Exit => ExitFacts(k);
      case YieldNow => YieldInv(k);
      case UserWrite(vaddr, b) =>
        UserStoreInv(k, p, vaddr, b);
        StoreTables(k, p, vaddr, b);
        StillRunning(k, k1);
      case DeviceWrite(x, ppn, page) =>
        DmaWriteInv(k, x, ppn, page);
        StillRunning(k, k1);
    }
  }

  lemma GetTables(k: Kernel, key: int)
    requires ShmGet(k, key).Done?
    ensures ShmGet(k, key).value.0.procs == k.procs
    ensures ShmGet(k, key).value.0.current == k.current && ShmGet(k, key).value.0.idle == k.idle
  {
  }

  lemma AttachLabels(k: Kernel, p: int, id: int)
    requires IsProc(k, p) && ShmAttach(k, p, id).Done?
    ensures OnlyProcAndObjects(k, ShmAttach(k, p, id).value.0, p)
    ensures ShmAttach(k, p, id).value.0.procs[p].state == k.procs[p].state
    ensures ShmAttach(k, p, id).value.0.procs[p].pid == k.procs[p].pid
  {
    hide MapPage;
  }

  lemma DetachLabels(k: Kernel, p: int, vaddr: int)
    requires IsProc(k, p) && ShmDetach(k, p, vaddr).Done?
    ensures OnlyProcAndObjects(k, ShmDetach(k, p, vaddr).value.0, p)
    ensures ShmDetach(k, p, vaddr).value.0.procs[p].state == k.procs[p].state
    ensures ShmDetach(k, p, vaddr).value.0.procs[p].pid == k.procs[p].pid
  {
    hide UnmapPage, ReleasePages;
  }

  lemma StoreTables(k: Kernel, p: int, vaddr: int, b: Byte)
    requires IsProc(k, p) && UserStore(k, p, vaddr, b).Done?
    ensures UserStore(k, p, vaddr, b).value == SetMem(k, UserStore(k, p, vaddr, b).value.heap.mem)
  {
  }

  /** Every state of every run satisfies the invariant. */
  lemma {:induction false} RunInv(k: Kernel, ops: seq<Op>)
    requires Inv(k) && Running(k) && Run(k, ops).Done?
    ensures Inv(Run(k, ops).value) && Running(Run(k, ops).value)
    decreases |ops|
  {
    hide Inv, Running, Step;
    if ops != [] {
      StepInv(k, ops[0]);
      RunInv(Step(k, ops[0]).value, ops[1..]);
    }
  }

  /** In every state reached from boot, two processes share a physical page in user mode only
      through a live object that both have attached. */
  lemma RunIsolated(ram: Ram, mem: Memory, sizes: seq<nat>, k0: Kernel, ops: seq<Op>, k: Kernel,
                    p: int, v: int, q: int, w: int, ppn: int)
      returns (i: int)
    requires Bootable(ram, mem) && AllAskable(sizes)
    requires Boot(ram, mem, sizes) == Done(k0) && Run(k0, ops) == Done(k)
    requires Rooted(k, p) && Rooted(k, q) && p != q && UserReach(k, p, v, ppn) && UserReach(k, q, w, ppn)
    ensures SharedVia(k, p, i, v, ppn) && SharedVia(k, q, i, w, ppn)
  {
    hide Inv, Boot, Run, UserReach, SharedVia;
    BootInv(ram, mem, sizes);
    RunInv(k0, ops);
    i := ProcessesIsolated(k, p, v, q, w, ppn);
  }
}
