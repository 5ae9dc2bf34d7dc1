/** `yield` (kernel/process.c) is round robin: with a fixed set of runnable processes, each gets the
    CPU exactly once per round, in cyclic slot order. */
module Scheduler {
  import opened Machine
  import opened Regions
  import opened Heap
  import opened KernelState
  import opened Ownership
  import opened Invariant
  import opened ExitSafe
  import opened Isolation
  import opened Runs

  /** The slot `j + 1` places after slot `c`, cyclically; `c` itself is at position 7. */
  function SlotAt(c: int, j: int): (s: int)
    ensures 0 <= s < PROCS_MAX
  {
    (c + 1 + j) % PROCS_MAX
  }

  /** The position of slot `t` counted from `c`. */
  function Position(c: int, t: int): (j: int)
    ensures 0 <= j < PROCS_MAX
  {
    (t - c - 1) % PROCS_MAX
  }

  lemma PositionOf(c: int, t: int)
    requires 0 <= t < PROCS_MAX
    ensures SlotAt(c, Position(c, t)) == t
    ensures Position(c, c) == PROCS_MAX - 1
  {
  }

  lemma SlotShift(c: int, j: int, i: int)
    ensures (SlotAt(c, j) + 1 + i) % PROCS_MAX == SlotAt(c, j + 1 + i)
  {
  }

  lemma SlotsDiffer(c: int, i: int, j: int)
    requires 0 <= i < j < PROCS_MAX
    ensures SlotAt(c, i) != SlotAt(c, j)
  {
  }

  predicate RunsAt(procs: seq<Process>, c: int, j: int)
    requires |procs| == PROCS_MAX
  {
    CanRun(procs[SlotAt(c, j)])
  }

  /** How many runnable slots come at positions below `j`. */
  function Before(procs: seq<Process>, c: int, j: nat): nat
    requires |procs| == PROCS_MAX
  {
    if j == 0 then 0 else Before(procs, c, j - 1) + if RunsAt(procs, c, j - 1) then 1 else 0
  }

  /** The number of runnable processes. */
  function Runnables(procs: seq<Process>, c: int): nat
    requires |procs| == PROCS_MAX
  {
    Before(procs, c, PROCS_MAX)
  }

  /** The turn of `t` in the round that starts after `c`. */
  function Turn(procs: seq<Process>, c: int, t: int): nat
    requires |procs| == PROCS_MAX
  {
    Before(procs, c, Position(c, t)) + 1
  }

  lemma {:induction false} BeforeMono(procs: seq<Process>, c: int, i: nat, j: nat)
    requires |procs| == PROCS_MAX && i <= j
    ensures Before(procs, c, i) <= Before(procs, c, j)
    ensures i < j && RunsAt(procs, c, i) ==> Before(procs, c, i) < Before(procs, c, j)
    decreases j
  {
    if i < j {
      BeforeMono(procs, c, i, j - 1);
    }
  }

  /** From position `j`, the scan of `yield` stops at the next runnable position. */
  lemma {:induction false} ScanFinds(procs: seq<Process>, c: int, j: int, i: nat, last: int, fallback: int)
      returns (m: nat)
    requires |procs| == PROCS_MAX && -1 <= j && j + 1 + i <= last < PROCS_MAX && RunsAt(procs, c, last)
    ensures j + 1 + i <= m <= last && RunsAt(procs, c, m) && Before(procs, c, m) == Before(procs, c, j + 1 + i)
    ensures PickNext(procs, SlotAt(c, j) + 1, i, fallback) == SlotAt(c, m)
    decreases last - i
  {
    SlotShift(c, j, i);
    if RunsAt(procs, c, j + 1 + i) {
      m := j + 1 + i;
    } else {
      m := ScanFinds(procs, c, j, i + 1, last, fallback);
    }
  }

  /** The process that runs after `n` yields starting from slot `c`. */
  function After(procs: seq<Process>, c: int, n: nat, fallback: int): int {
    if n == 0 then c else PickNext(procs, After(procs, c, n - 1, fallback) + 1, 0, fallback)
  }

  /** The `n`-th yield of the round reaches the runnable slot with `n - 1` runnable slots before it. */
  lemma {:induction false} AfterNth(procs: seq<Process>, c: int, n: nat, fallback: int) returns (m: nat)
    requires |procs| == PROCS_MAX && 0 <= c < PROCS_MAX && CanRun(procs[c]) && 1 <= n <= Runnables(procs, c)
    ensures m < PROCS_MAX && After(procs, c, n, fallback) == SlotAt(c, m)
    ensures RunsAt(procs, c, m) && Before(procs, c, m) == n - 1
    decreases n
  {
    hide PickNext;
    PositionOf(c, c);
    if n == 1 {
      m := ScanFinds(procs, c, -1, 0, PROCS_MAX - 1, fallback);
    } else {
      var j := AfterNth(procs, c, n - 1, fallback);
      assert j < PROCS_MAX - 1;
      m := ScanFinds(procs, c, j, 0, PROCS_MAX - 1, fallback);
    }
  }

  /** Round robin: in the round of yields that starts at a runnable `c`, every runnable slot `t` runs
      exactly once, at turn `Turn(t)`, and `c` comes back last. */
  lemma EachOncePerRound(procs: seq<Process>, c: int, t: int, n: nat, fallback: int)
    requires |procs| == PROCS_MAX && 0 <= c < PROCS_MAX && CanRun(procs[c]) && 0 <= t < PROCS_MAX && CanRun(procs[t])
    requires 1 <= n <= Runnables(procs, c)
    ensures After(procs, c, n, fallback) == t <==> n == Turn(procs, c, t)
    ensures 1 <= Turn(procs, c, t) <= Runnables(procs, c)
    ensures Turn(procs, c, c) == Runnables(procs, c)
  {
    hide After;
    PositionOf(c, t);
    PositionOf(c, c);
    var m := AfterNth(procs, c, n, fallback);
    var j := Position(c, t);
    BeforeMono(procs, c, j, PROCS_MAX);
    if m < j {
      BeforeMono(procs, c, m, j);
      SlotsDiffer(c, m, j);
    } else if j < m {
      BeforeMono(procs, c, j, m);
      SlotsDiffer(c, j, m);
    }
  }

  /** The slots still to be scanned. */
  predicate Ahead(pid: int, i: int, t: int) {
    (t - pid) % PROCS_MAX >= i
  }

  /** The scan gives the fallback exactly when none of the slots it still looks at can run. */
  lemma {:induction false} FallbackIff(procs: seq<Process>, pid: int, i: nat, fallback: int)
    requires |procs| == PROCS_MAX && i <= PROCS_MAX
    requires !(0 <= fallback < PROCS_MAX && CanRun(procs[fallback]))
    ensures PickNext(procs, pid, i, fallback) == fallback <==>
            forall t :: 0 <= t < PROCS_MAX && Ahead(pid, i, t) ==> !CanRun(procs[t])
    decreases PROCS_MAX - i
  {
    hide Ahead;
    if i == PROCS_MAX {
      forall t | 0 <= t < PROCS_MAX ensures !Ahead(pid, i, t) {
        NoneAhead(pid, t);
      }
    } else {
      var s := (pid + i) % PROCS_MAX;
      FallbackIff(procs, pid, i + 1, fallback);
      forall t | 0 <= t < PROCS_MAX ensures Ahead(pid, i, t) <==> Ahead(pid, i + 1, t) || t == s {
        AheadSplit(pid, i, t);
      }
    }
  }

  lemma NoneAhead(pid: int, t: int)
    ensures !Ahead(pid, PROCS_MAX, t)
  {
  }

  lemma AheadSplit(pid: int, i: int, t: int)
    requires 0 <= i < PROCS_MAX && 0 <= t < PROCS_MAX
    ensures Ahead(pid, i, t) <==> Ahead(pid, i + 1, t) || t == (pid + i) % PROCS_MAX
  {
  }

  /** Idle runs next exactly when no process with a positive pid is runnable. */
  lemma IdleOnlyIfNone(k: Kernel, pid: int)
    requires Inv(k) && Running(k)
    ensures PickNext(k.procs, pid, 0, k.idle) == k.idle <==> forall t :: IsProc(k, t) ==> !CanRun(k.procs[t])
  {
    hide Policy, ObjectsOk, PickNext, Exclusive, HeldAllocated, HeapOk, SpaceOk;
    assert ProcOk(k, k.idle);
    FallbackIff(k.procs, pid, 0, k.idle);
    assert forall t :: Ahead(pid, 0, t);
  }

  // ---- stretches of a run without create and exit ----

  /** The same slots can run. */
  ghost predicate SameRunnable(procs: seq<Process>, procs1: seq<Process>) {
    |procs1| == |procs| && forall t :: 0 <= t < |procs| ==> CanRun(procs1[t]) == CanRun(procs[t])
  }

  lemma {:induction false} PickSame(procs: seq<Process>, procs1: seq<Process>, pid: int, i: nat, fallback: int)
    requires SameRunnable(procs, procs1) && i <= PROCS_MAX
    ensures PickNext(procs1, pid, i, fallback) == PickNext(procs, pid, i, fallback)
    decreases PROCS_MAX - i
  {
    hide CanRun;
    if i < PROCS_MAX {
      PickSame(procs, procs1, pid, i + 1, fallback);
    }
  }

  lemma {:induction false} AfterSame(procs: seq<Process>, procs1: seq<Process>, c: int, n: nat, fallback: int)
    requires SameRunnable(procs, procs1)
    ensures After(procs1, c, n, fallback) == After(procs, c, n, fallback)
    decreases n
  {
    hide PickNext, SameRunnable;
    if n > 0 {
      AfterSame(procs, procs1, c, n - 1, fallback);
      PickSame(procs, procs1, After(procs, c, n - 1, fallback) + 1, 0, fallback);
    }
  }

  lemma {:induction false} AfterShift(procs: seq<Process>, c: int, n: nat, fallback: int)
    ensures After(procs, After(procs, c, 1, fallback), n, fallback) == After(procs, c, n + 1, fallback)
    decreases n
  {
    hide PickNext;
    if n > 0 {
      AfterShift(procs, c, n - 1, fallback);
    }
  }

  /** The scan of idle, whose pid is 0, starts at its own slot 0, which cannot run. */
  lemma {:induction false} PickFromIdle(procs: seq<Process>, i: nat, fallback: int)
    requires |procs| == PROCS_MAX && !CanRun(procs[0]) && i < PROCS_MAX
    ensures PickNext(procs, 0, i + 1, fallback) == PickNext(procs, 1, i, fallback)
    decreases PROCS_MAX - i
  {
    hide CanRun;
    if i + 1 < PROCS_MAX {
      PickFromIdle(procs, i + 1, fallback);
    } else {
      assert PickNext(procs, 1, i + 1, fallback) == fallback;
    }
  }

  /** Idle is in slot 0, as after boot, or does not run. */
  predicate IdleFirst(k: Kernel) {
    k.current == k.idle ==> k.idle == 0
  }

  /** One yield moves the CPU to the next runnable slot and touches nothing else. */
  lemma YieldStep(k: Kernel)
    requires Inv(k) && Running(k) && IdleFirst(k)
    ensures Step(k, YieldNow) == Done(k.(current := PickNext(k.procs, k.current + 1, 0, k.idle)))
    ensures IdleFirst(Step(k, YieldNow).value)
  {
    hide Base, Policy, ObjectsOk, PickNext, Switch;
    InvSlots(k);
    assert ProcOk(k, k.current);
    YieldInv(k);
    if k.current == k.idle {
      IdleScan(k.procs);
      assert Switch(k) == k.(current := PickNext(k.procs, 0, 0, k.idle)) by { SwitchIs(k); }
    } else {
      assert CanRun(k.procs[k.current]);
      IdleOnlyIfNone(k, k.current + 1);
      assert Switch(k) == k.(current := PickNext(k.procs, k.current + 1, 0, k.idle)) by { SwitchIs(k); }
    }
  }

  lemma InvSlots(k: Kernel)
    requires Inv(k)
    ensures |k.procs| == PROCS_MAX
  {
  }

  lemma SwitchIs(k: Kernel)
    requires IsProc(k, k.current)
    ensures Switch(k) == k.(current := PickNext(k.procs, k.procs[k.current].pid, 0, k.idle))
  {
  }

  lemma IdleScan(procs: seq<Process>)
    requires |procs| == PROCS_MAX && !CanRun(procs[0])
    ensures PickNext(procs, 0, 0, 0) == PickNext(procs, 1, 0, 0)
  {
    hide CanRun;
    PickFromIdle(procs, 0, 0);
    assert PickNext(procs, 0, 0, 0) == PickNext(procs, 0, 1, 0);
  }

  /** Anything but a create or an exit. */
  predicate Quiet(op: Op) {
    !op.Create? && !op.Exit?
  }

  /** The other calls, user stores and device writes do not move the CPU or change who can run. */
  lemma QuietStep(k: Kernel, op: Op)
    requires Inv(k) && Running(k) && Quiet(op) && !op.YieldNow? && Step(k, op).Done?
    ensures SameRunnable(k.procs, Step(k, op).value.procs)
    ensures Step(k, op).value.current == k.current && Step(k, op).value.idle == k.idle
  {
    hide Inv, ShmGet, ShmAttach, ShmDetach, UserStore;
    match op {
      case Get(key) => GetTables(k, key);
      case Attach(id) => AttachLabels(k, k.current, id);
      case Detach(vaddr) => DetachLabels(k, k.current, vaddr);
      case UserWrite(vaddr, b) => StoreTables(k, k.current, vaddr, b);
      case DeviceWrite(x, ppn, page) =>
    }
  }

  function YieldCount(ops: seq<Op>): nat {
    if ops == [] then 0 else (if ops[0].YieldNow? then 1 else 0) + YieldCount(ops[1..])
  }

  /** Over any stretch without create and exit, whatever else the processes do, the runnable set stays
      and the CPU is where as many turns as there were yields have taken it. */
  lemma {:induction false} StretchFollows(k: Kernel, ops: seq<Op>)
    requires Inv(k) && Running(k) && IdleFirst(k) && Run(k, ops).Done?
    requires forall i :: 0 <= i < |ops| ==> Quiet(ops[i])
    ensures SameRunnable(k.procs, Run(k, ops).value.procs)
    ensures Run(k, ops).value.current == After(k.procs, k.current, YieldCount(ops), k.idle)
    ensures Run(k, ops).value.idle == k.idle
    decreases |ops|
  {
    hide Inv, Running, Step, PickNext, CanRun;
    if ops != [] {
      var k1 := Step(k, ops[0]).value;
      StepInv(k, ops[0]);
      if ops[0].YieldNow? {
        YieldStep(k);
        assert After(k.procs, k.current, 0, k.idle) == k.current;
        assert k1.current == After(k.procs, k.current, 1, k.idle);
        StretchFollows(k1, ops[1..]);
        AfterShift(k.procs, k.current, YieldCount(ops[1..]), k.idle);
      } else {
        QuietStep(k, ops[0]);
        StretchFollows(k1, ops[1..]);
        AfterSame(k.procs, k1.procs, k.current, YieldCount(ops[1..]), k.idle);
      }
    }
  }

  lemma {:induction false} AfterCompose(procs: seq<Process>, c: int, a: nat, b: nat, fallback: int)
    ensures After(procs, c, a + b, fallback) == After(procs, After(procs, c, a, fallback), b, fallback)
    decreases b
  {
    hide PickNext;
    if b > 0 {
      AfterCompose(procs, c, a, b - 1, fallback);
    }
  }

  /** After a full round the CPU is back where it was. */
  lemma {:induction false} AfterRounds(procs: seq<Process>, c: int, m: nat, n: nat, fallback: int)
    requires |procs| == PROCS_MAX && 0 <= c < PROCS_MAX && CanRun(procs[c])
    ensures 1 <= Runnables(procs, c)
    ensures After(procs, c, m * Runnables(procs, c) + n, fallback) == After(procs, c, n, fallback)
    decreases m
  {
    hide After, Runnables, Turn;
    var r := Runnables(procs, c);
    RoundLength(procs, c);
    if m > 0 {
      EachOncePerRound(procs, c, c, r, fallback);
      AfterCompose(procs, c, r, (m - 1) * r + n, fallback);
      assert r + ((m - 1) * r + n) == m * r + n;
      AfterRounds(procs, c, m - 1, n, fallback);
    }
  }

  lemma RoundLength(procs: seq<Process>, c: int)
    requires |procs| == PROCS_MAX && 0 <= c < PROCS_MAX && CanRun(procs[c])
    ensures 1 <= Runnables(procs, c)
  {
    PositionOf(c, c);
    BeforeMono(procs, c, PROCS_MAX - 1, PROCS_MAX);
  }

  lemma Parts(y: nat, r: int)
    requires 0 < r
    ensures 0 <= y / r && 0 <= y % r < r && y / r * r + (y % r + 1) == y + 1
  {
  }

  /** Round robin over runs: however long a stretch without create and exit, a runnable `t` has the CPU
      at its end exactly when the last yield was the turn of `t` in its round. */
  lemma RoundRobin(k: Kernel, ops: seq<Op>, t: int)
    requires Inv(k) && Running(k) && k.current != k.idle && Run(k, ops).Done?
    requires forall i :: 0 <= i < |ops| ==> Quiet(ops[i])
    requires IsProc(k, t) && CanRun(k.procs[t]) && |k.procs| == PROCS_MAX && 1 <= YieldCount(ops)
    ensures var r := Runnables(k.procs, k.current);
            && 1 <= r
            && (Run(k, ops).value.current == t <==> (YieldCount(ops) - 1) % r + 1 == Turn(k.procs, k.current, t))
    ensures IsProc(Run(k, ops).value, t) && CanRun(Run(k, ops).value.procs[t])
  {
    hide Base, Policy, ObjectsOk, Run, After, Runnables, Turn;
    assert ProcOk(k, k.current);
    StretchFollows(k, ops);
    RoundLength(k.procs, k.current);
    var r, y := Runnables(k.procs, k.current), YieldCount(ops) - 1;
    Parts(y, r);
    AfterRounds(k.procs, k.current, y / r, y % r + 1, k.idle);
    EachOncePerRound(k.procs, k.current, t, y % r + 1, k.idle);
  }

  // ---- an exited slot is not chosen again ----

  /** A step other than a create leaves the records of all processes but the running one. */
  lemma OthersSame(k: Kernel, op: Op, p: int)
    requires Inv(k) && Running(k) && !op.Create? && Step(k, op).Done? && IsProc(k, p) && p != k.current
    ensures IsProc(Step(k, op).value, p) && Step(k, op).value.procs[p] == k.procs[p]
  {
    hide Inv, ShmGet, ShmAttach, ShmDetach, ExitCurrent, UserStore, Yield, FreesExactly, FreedByExit, PickNext;
    match op {
      case Get(key) => GetTables(k, key);
      case Attach(id) => AttachLabels(k, k.current, id);
      case Detach(vaddr) => DetachLabels(k, k.current, vaddr);
      case Exit => ExitFacts(k);
      case YieldNow => YieldInv(k);
      case UserWrite(vaddr, b) => StoreTables(k, k.current, vaddr, b);
      case DeviceWrite(x, ppn, page) =>
    }
  }

  /** An unused slot, such as that of a process that has exited, stays unused and never gets the CPU
      until a process is created. */
  lemma {:induction false} UnusedNeverRuns(k: Kernel, ops: seq<Op>, p: int)
    requires Inv(k) && Running(k) && IsProc(k, p) && k.procs[p].state.ProcUnused? && Run(k, ops).Done?
    requires forall i :: 0 <= i < |ops| ==> !ops[i].Create?
    ensures IsProc(Run(k, ops).value, p) && Run(k, ops).value.procs[p].state.ProcUnused?
    ensures Run(k, ops).value.current != p
    decreases |ops|
  {
    hide Inv, Step;
    if ops != [] {
      StepInv(k, ops[0]);
      OthersSame(k, ops[0], p);
      UnusedNeverRuns(Step(k, ops[0]).value, ops[1..], p);
    }
  }

  // ---- idle stays in slot 0 ----

  lemma StepIdle(k: Kernel, op: Op)
    requires Step(k, op).Done?
    ensures Step(k, op).value.idle == k.idle
  {
    hide CreateProcess, ShmDetach, ReleaseRegions, MapPage, AllocRegion, ShmCleanup, PickNext, UserStore,
         ReleasedProcess;
    if op.UserWrite? && IsProc(k, k.current) && k.current != k.idle {
      StoreTables(k, k.current, op.vaddr, op.b);
    }
  }

  /** In every state reached from boot the idle process is in slot 0, so `StretchFollows` applies. */
  lemma {:induction false} RunIdle(k: Kernel, ops: seq<Op>)
    requires Run(k, ops).Done?
    ensures Run(k, ops).value.idle == k.idle
    decreases |ops|
  {
    hide Step;
    if ops != [] {
      StepIdle(k, ops[0]);
      RunIdle(Step(k, ops[0]).value, ops[1..]);
    }
  }

  lemma BootIdle(ram: Ram, mem: Memory, sizes: seq<nat>, ops: seq<Op>)
    requires Boot(ram, mem, sizes).Done? && Run(Boot(ram, mem, sizes).value, ops).Done?
    ensures Run(Boot(ram, mem, sizes).value, ops).value.idle == 0
  {
    hide BuildSpace;
    var k1 := AllocDevices(Blank(ram, mem), sizes).value;
    DevicesKeepProcs(Blank(ram, mem), sizes);
    assert k1.procs[0].state.ProcUnused? && FindProcSlot(k1.procs, 0) == 0;
    RunIdle(Boot(ram, mem, sizes).value, ops);
  }

  lemma {:induction false} DevicesKeepProcs(k: Kernel, sizes: seq<nat>)
    requires AllocDevices(k, sizes).Done?
    ensures AllocDevices(k, sizes).value.procs == k.procs
    decreases |sizes|
  {
    if sizes != [] {
      DevicesKeepProcs(AllocDevice(k, sizes[0]).value, sizes[1..]);
    }
  }
}
