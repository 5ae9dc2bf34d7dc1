/** The kernel invariant: ownership, page tables, translation policy, shared-memory accounting and
    the process table all agree. */
module Invariant {
  import opened Machine
  import opened PageTables
  import opened KernelState
  import opened Ownership
  import opened Creation

  // ---- what a process may translate ----

  predicate KernelVpn(k: Kernel, vpn: int) {
    InRange(vpn, KERNEL_BASE, k.ram.hi)
  }

  predicate InShmWindow(vpn: int) {
    SHM_VPN <= vpn < SHM_VPN + PROC_SHM_MAX
  }

  predicate InImageWindow(vpn: int) {
    USER_VPN <= vpn < USER_VPN + PROC_REGION_MAX
  }

  /** User-accessible leaves are private image pages, or lie in a shared-memory slot in use. */
  ghost predicate UserLeafOk(k: Kernel, p: int, vpn: int, leaf: Leaf)
    requires IsProc(k, p)
  {
    if InShmWindow(vpn) then vpn - SHM_VPN < |k.procs[p].shm| && k.procs[p].shm[vpn - SHM_VPN].used
    else InImageWindow(vpn) && leaf.perm == IMAGE_PERM && Private(k, p, leaf.ppn)
  }

  /** All other leaves are identity maps of kernel or device pages. */
  ghost predicate LeafOk(k: Kernel, p: int, vpn: int, leaf: Leaf)
    requires IsProc(k, p)
  {
    if leaf.perm.u then UserLeafOk(k, p, vpn, leaf)
    else leaf.ppn == vpn && (KernelVpn(k, vpn) || DeviceVpn(vpn, 0))
  }

  ghost predicate LeavesOk(k: Kernel, p: int)
    requires IsProc(k, p)
  {
    forall vpn :: 0 <= vpn < VPNS && Translate(k, p, vpn).Some? ==> LeafOk(k, p, vpn, Translate(k, p, vpn).value)
  }

  ghost predicate KernelMapped(k: Kernel, p: int)
    requires IsProc(k, p)
  {
    && (forall vpn :: 0 <= vpn < VPNS && KernelVpn(k, vpn) ==> Translate(k, p, vpn) == Some(Leaf(vpn, KERNEL_PERM)))
    && (forall vpn :: 0 <= vpn < VPNS && DeviceVpn(vpn, 0) ==> Translate(k, p, vpn) == Some(Leaf(vpn, DEVICE_PERM)))
  }

  /** The page of the live object with this id. */
  function ObjectPage(objs: seq<ShmObject>, id: int): Option<int> {
    var i := FindById(objs, id, 0);
    if i < 0 then None else Some(objs[i].pa / PAGE_SIZE)
  }

  /** A mapping in use sits at its slot's address and translates to the page of a live object. */
  ghost predicate MappingOk(k: Kernel, p: int, s: int)
    requires IsProc(k, p) && 0 <= s < |k.procs[p].shm| && SHM_VPN + s < VPNS
  {
    var m := k.procs[p].shm[s];
    m.used ==>
      && m.vaddr == SlotVaddr(s)
      && ObjectPage(k.objs, m.shmId).Some?
      && Translate(k, p, SHM_VPN + s) == Some(Leaf(ObjectPage(k.objs, m.shmId).value, SHM_PERM))
  }

  ghost predicate SpacePolicy(k: Kernel, p: int)
    requires IsProc(k, p) && |k.procs[p].shm| == PROC_SHM_MAX
  {
    if Rooted(k, p) then
      && LeavesOk(k, p)
      && KernelMapped(k, p)
      && (forall s :: 0 <= s < PROC_SHM_MAX ==> MappingOk(k, p, s))
    else
      forall s :: 0 <= s < PROC_SHM_MAX ==> !k.procs[p].shm[s].used
  }

  // ---- shared-memory accounting ----

  /** Number of used mappings of one process that name `id`. */
  function CountMaps(maps: seq<ShmMapping>, id: int): nat {
    if maps == [] then 0
    else CountMaps(maps[..|maps| - 1], id) + if maps[|maps| - 1].used && maps[|maps| - 1].shmId == id then 1 else 0
  }

  /** Number of used mappings that name `id` across all processes. */
  function CountRefs(procs: seq<Process>, id: int): nat {
    if procs == [] then 0
    else CountRefs(procs[..|procs| - 1], id) + CountMaps(procs[|procs| - 1].shm, id)
  }

  ghost predicate ObjectOk(k: Kernel, i: int)
    requires 0 <= i < |k.objs|
  {
    var obj := k.objs[i];
    if obj.used then
      && 0 < obj.id < k.nextShmId
      && 0 < obj.key
      && 0 <= obj.region < |k.heap.rs| && obj.pa == k.heap.rs[obj.region].start
      && obj.refcount == CountRefs(k.procs, obj.id)
    else obj == NO_OBJECT
  }

  ghost predicate ObjectsOk(k: Kernel) {
    && 0 < k.nextShmId
    && (forall i :: 0 <= i < |k.objs| ==> ObjectOk(k, i))
    && (forall i, j :: 0 <= i < j < |k.objs| && k.objs[i].used && k.objs[j].used ==>
          k.objs[i].id != k.objs[j].id && k.objs[i].key != k.objs[j].key)
  }

  // ---- the process table ----

  ghost predicate ProcOk(k: Kernel, p: int)
    requires IsProc(k, p)
  {
    if k.procs[p].state.ProcUnused? then k.procs[p].currentIdx == 0 && k.procs[p].pid == 0
    else 0 < k.procs[p].currentIdx && k.procs[p].pid == if p == k.idle then 0 else p + 1
  }

  ghost predicate Policy(k: Kernel) {
    forall p :: IsProc(k, p) ==> |k.procs[p].shm| == PROC_SHM_MAX && SpacePolicy(k, p)
  }

  ghost predicate ProcsOk(k: Kernel) {
    forall p :: IsProc(k, p) ==> ProcOk(k, p)
  }

  ghost predicate Inv(k: Kernel) {
    Base(k) && Policy(k) && ObjectsOk(k) && ProcsOk(k)
  }

  /** Interrupt-free scheduling state: the running and the idle process exist. */
  ghost predicate Running(k: Kernel) {
    && IsProc(k, k.current) && k.procs[k.current].state.Runnable?
    && IsProc(k, k.idle) && k.procs[k.idle].state.Runnable?
  }

  // ---- counting lemmas ----

  lemma {:induction false} CountMapsUpdate(maps: seq<ShmMapping>, s: int, m: ShmMapping, id: int)
    requires 0 <= s < |maps|
    ensures CountMaps(maps[s := m], id) ==
            CountMaps(maps, id) - (if maps[s].used && maps[s].shmId == id then 1 else 0)
            + (if m.used && m.shmId == id then 1 else 0)
  {
    var n := |maps| - 1;
    if s < n {
      assert maps[s := m][..n] == maps[..n][s := m];
      CountMapsUpdate(maps[..n], s, m, id);
    } else {
      assert maps[s := m][..n] == maps[..n];
    }
  }

  lemma {:induction false} CountRefsUpdate(procs: seq<Process>, p: int, proc: Process, id: int)
    requires 0 <= p < |procs|
    ensures CountRefs(procs[p := proc], id) ==
            CountRefs(procs, id) - CountMaps(procs[p].shm, id) + CountMaps(proc.shm, id)
  {
    var n := |procs| - 1;
    if p < n {
      assert procs[p := proc][..n] == procs[..n][p := proc];
      CountRefsUpdate(procs[..n], p, proc, id);
    } else {
      assert procs[p := proc][..n] == procs[..n];
    }
  }

  lemma {:induction false} CountNone(maps: seq<ShmMapping>, id: int)
    requires forall s :: 0 <= s < |maps| ==> !(maps[s].used && maps[s].shmId == id)
    ensures CountMaps(maps, id) == 0
  {
    if maps != [] {
      CountNone(maps[..|maps| - 1], id);
    }
  }

  lemma {:induction false} CountSome(maps: seq<ShmMapping>, s: int, id: int)
    requires 0 <= s < |maps| && maps[s].used && maps[s].shmId == id
    ensures CountMaps(maps, id) > 0
  {
    if s < |maps| - 1 {
      CountSome(maps[..|maps| - 1], s, id);
    }
  }

  lemma {:induction false} CountRefsSome(procs: seq<Process>, p: int, s: int, id: int)
    requires 0 <= p < |procs| && 0 <= s < |procs[p].shm| && procs[p].shm[s].used && procs[p].shm[s].shmId == id
    ensures CountRefs(procs, id) > 0
  {
    if p < |procs| - 1 {
      CountRefsSome(procs[..|procs| - 1], p, s, id);
    } else {
      CountSome(procs[p].shm, s, id);
    }
  }

  lemma {:induction false} CountRefsNone(procs: seq<Process>, id: int)
    requires forall p, s :: 0 <= p < |procs| && 0 <= s < |procs[p].shm| && procs[p].shm[s].used ==>
              procs[p].shm[s].shmId != id
    ensures CountRefs(procs, id) == 0
  {
    if procs != [] {
      var n := |procs| - 1;
      CountRefsNone(procs[..n], id);
      CountNone(procs[n].shm, id);
    }
  }

  // ---- the policy of a process that an operation does not touch ----

  /** The ids that `q` has mapped still name the same pages. */
  ghost predicate SamePages(k: Kernel, k1: Kernel, q: int)
    requires IsProc(k, q)
  {
    forall s :: 0 <= s < |k.procs[q].shm| && k.procs[q].shm[s].used ==>
      ObjectPage(k1.objs, k.procs[q].shm[s].shmId) == ObjectPage(k.objs, k.procs[q].shm[s].shmId)
  }

  /** All that the policy of `q` depends on: its translations, which of its pages are private, its
      mapping slots and the pages they name. */
  ghost predicate SameView(k: Kernel, k1: Kernel, q: int)
    requires IsProc(k, q)
  {
    && IsProc(k1, q) && k1.ram == k.ram && k1.procs[q].shm == k.procs[q].shm && (Rooted(k1, q) <==> Rooted(k, q))
    && (Rooted(k, q) ==> forall vpn :: 0 <= vpn < VPNS ==> Translate(k1, q, vpn) == Translate(k, q, vpn))
    && (Rooted(k, q) ==> forall ppn :: Private(k1, q, ppn) <==> Private(k, q, ppn))
    && SamePages(k, k1, q)
  }

  lemma PolicyDepends(k: Kernel, k1: Kernel, q: int)
    requires IsProc(k, q) && |k.procs[q].shm| == PROC_SHM_MAX && SpacePolicy(k, q) && SameView(k, k1, q)
    ensures SpacePolicy(k1, q)
  {
    hide Private, Translate, ObjectPage, DeviceVpn;
    if Rooted(k, q) {
      forall s | 0 <= s < PROC_SHM_MAX ensures MappingOk(k1, q, s) {
        assert MappingOk(k, q, s);
      }
    }
  }

  /** Pids, states, the device list and the choice of running and idle process are no part of it. */
  lemma PolicyOfRecord(k: Kernel, k1: Kernel, q: int)
    requires IsProc(k, q) && |k.procs[q].shm| == PROC_SHM_MAX && SpacePolicy(k, q)
    requires IsProc(k1, q) && k1.heap == k.heap && k1.ram == k.ram && k1.objs == k.objs
    requires k1.procs[q] == k.procs[q].(pid := k1.procs[q].pid, state := k1.procs[q].state)
    ensures SpacePolicy(k1, q)
  {
    hide SpacePolicy, Walk, ObjectPage;
    assert Own(k1, q) == Own(k, q);
    PolicyDepends(k, k1, q);
  }

  lemma PolicyKept(k: Kernel, k1: Kernel, p: int, q: int)
    requires Base(k) && KeepsOthers(k, k1, p) && IsProc(k, q) && q != p
    requires |k.procs[q].shm| == PROC_SHM_MAX && SpacePolicy(k, q)
    requires SamePages(k, k1, q)
    ensures SpacePolicy(k1, q)
  {
    hide Base, KeepsOthers, Private, Walk, SpacePolicy, SamePages;
    OthersKept(k, k1, p, q);
    KeepsGives(k, k1, p, q);
    PolicyDepends(k, k1, q);
  }

  lemma KeepsGives(k: Kernel, k1: Kernel, p: int, q: int)
    requires KeepsOthers(k, k1, p) && IsProc(k, q) && q != p
    ensures IsProc(k1, q) && k1.procs[q] == k.procs[q] && k1.ram == k.ram
  {
  }
}
