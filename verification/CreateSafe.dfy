/** `create_process` and `init_processes` keep the invariant and load images faithfully. */
module CreateSafe {
  import opened Machine
  import opened PageTables
  import opened KernelState
  import opened Ownership
  import opened Mapping
  import opened Creation
  import opened Invariant
  import opened Capacity

  /** The complete layout of a new address space: image pages, device pages, kernel pages, and
      nothing else. */
  ghost predicate Layout(k: Kernel, p: int, image: seq<Byte>)
    requires IsProc(k, p)
  {
    && PageCount(image) < PROC_REGION_MAX
    && LoadedUpTo(k, p, image, PageCount(image))
    && (forall vpn :: 0 <= vpn < VPNS && !(USER_VPN <= vpn < USER_VPN + PageCount(image)) ==>
          Translate(k, p, vpn) ==
          if DeviceVpn(vpn, 0) then Some(Leaf(vpn, DEVICE_PERM))
          else if KernelVpn(k, vpn) then Some(Leaf(vpn, KERNEL_PERM))
          else None)
  }

  lemma KeepsExtends(k: Kernel, k1: Kernel, k2: Kernel, p: int)
    requires IsProc(k, p) && k.procs[p].currentIdx == 0 && IsProc(k1, p)
    requires KeepsOthers(k, k1, p) && Extends(k1, k2, p)
    ensures KeepsOthers(k, k2, p)
  {
    KeepsTrans(k, k1, k2, p);
  }

  lemma RamAligned(k: Kernel)
    requires Base(k)
    ensures k.ram.hi % PAGE_SIZE == 0 && 0 < k.ram.hi < TWO_32
  {
  }

  lemma RootedBound(k: Kernel, p: int)
    requires Base(k) && IsProc(k, p)
    ensures k.procs[p].currentIdx <= PROC_REGION_MAX && |k.procs[p].regions| == PROC_REGION_MAX
    ensures |k.procs[p].shm| == PROC_SHM_MAX
  {
  }

  lemma BuildSpaceFacts(k: Kernel, p: int, image: seq<Byte>)
    requires Base(k) && IsProc(k, p) && k.procs[p].currentIdx == 0
    requires BuildSpace(k, p, image).Done?
    ensures Base(BuildSpace(k, p, image).value) && Rooted(BuildSpace(k, p, image).value, p)
    ensures KeepsOthers(k, BuildSpace(k, p, image).value, p)
    ensures BuildSpace(k, p, image).value.procs[p].shm == NoMappings()
    ensures Layout(BuildSpace(k, p, image).value, p, image)
  {
    hide Base, Extends, KeepsOthers, NewRoot, MapRange, MapDevices, LoadImage, Walk, PageLoaded, NoMappings, DeviceVpn;
    NewRootFacts(k, p);
    var k1 := NewRoot(k, p).value;
    RamAligned(k);
    MapRangeFacts(k1, p, KERNEL_BASE, k.ram.hi);
    var k2 := MapRange(k1, p, KERNEL_BASE, k.ram.hi).value;
    ExtendsGives(k1, k2, p);
    MapDevicesFacts(k2, p, 0);
    var k3 := MapDevices(k2, p, 0).value;
    ExtendsGives(k2, k3, p);
    LoadImageFacts(k3, p, image, 0);
    var k4 := LoadImage(k3, p, image, 0).value;
    ExtendsGives(k3, k4, p);
    ExtendsTrans(k1, k2, k3, p);
    ExtendsTrans(k1, k3, k4, p);
    KeepsExtends(k, k1, k4, p);
    assert image == [] ==> PageCount(image) == 0;
  }

  /** The device pages lie outside the kernel range, the image window and the shared window. */
  lemma DeviceApart(k: Kernel, vpn: int)
    requires DeviceVpn(vpn, 0)
    ensures !KernelVpn(k, vpn) && !InImageWindow(vpn) && !InShmWindow(vpn)
  {
  }

  lemma LayoutPolicy(k: Kernel, p: int, image: seq<Byte>)
    requires IsProc(k, p) && Rooted(k, p) && k.procs[p].shm == NoMappings() && Layout(k, p, image)
    ensures SpacePolicy(k, p)
  {
    hide Private, Walk, DeviceVpn;
    forall vpn | 0 <= vpn < VPNS
      ensures Translate(k, p, vpn).Some? ==> LeafOk(k, p, vpn, Translate(k, p, vpn).value)
      ensures KernelVpn(k, vpn) ==> Translate(k, p, vpn) == Some(Leaf(vpn, KERNEL_PERM))
      ensures DeviceVpn(vpn, 0) ==> Translate(k, p, vpn) == Some(Leaf(vpn, DEVICE_PERM))
    {
      if DeviceVpn(vpn, 0) {
        DeviceApart(k, vpn);
      } else if USER_VPN <= vpn < USER_VPN + PageCount(image) {
        assert PageLoaded(k, p, image, vpn - USER_VPN);
      }
    }
    assert forall s :: 0 <= s < PROC_SHM_MAX ==> MappingOk(k, p, s);
  }

  /** Setting the pid and state of `p` moves nothing that the invariant looks at. */
  lemma Relabel(k: Kernel, p: int, pid: int, state: ProcState, image: seq<Byte>)
    requires Base(k) && IsProc(k, p)
    ensures Base(Relabelled(k, p, pid, state))
    ensures KeepsOthers(k, Relabelled(k, p, pid, state), p)
    ensures Layout(k, p, image) ==> Layout(Relabelled(k, p, pid, state), p, image)
  {
    var k1 := Relabelled(k, p, pid, state);
    RelabelOwned(k, p, pid, state);
    assert Own(k1, p) == Own(k, p);
    forall q ensures SpaceOk(k1, q) {
      assert SpaceOk(k, q);
      if IsProc(k, q) {
        assert Own(k1, q) == Own(k, q);
      }
    }
    if Layout(k, p, image) {
      RelabelLayout(k, p, pid, state, image);
    }
  }

  function Relabelled(k: Kernel, p: int, pid: int, state: ProcState): Kernel
    requires IsProc(k, p)
  {
    SetProc(k, p, k.procs[p].(pid := pid, state := state))
  }

  lemma RelabelOwned(k: Kernel, p: int, pid: int, state: ProcState)
    requires Owned(k) && IsProc(k, p)
    ensures Owned(Relabelled(k, p, pid, state)) && KeepsOthers(k, Relabelled(k, p, pid, state), p)
  {
    assert forall o, x :: Holds(Relabelled(k, p, pid, state), o, x) <==> Holds(k, o, x);
  }

  lemma RelabelLayout(k: Kernel, p: int, pid: int, state: ProcState, image: seq<Byte>)
    requires IsProc(k, p) && Layout(k, p, image)
    ensures Layout(Relabelled(k, p, pid, state), p, image)
  {
    hide Walk, DeviceVpn, ImagePage;
    var k1 := Relabelled(k, p, pid, state);
    assert Own(k1, p) == Own(k, p);
    forall i: nat | i < PageCount(image) && i * PAGE_SIZE < |image|
      ensures USER_VPN + i < VPNS && PageLoaded(k1, p, image, i)
    {
      assert PageLoaded(k, p, image, i);
    }
  }

  /** `create_process` returns exactly when it can; the new process then has the stated layout, and no
      other owner's records, regions or memory change. */
  lemma CreateFacts(k: Kernel, image: seq<Byte>)
    requires Inv(k)
    ensures CreateProcess(k, image).Done? <==> CanCreate(k, image)
    ensures CreateProcess(k, image).Done? ==>
            var (k1, p) := CreateProcess(k, image).value;
            && IsProc(k, p) && k.procs[p].state.ProcUnused?
            && Base(k1) && KeepsOthers(k, k1, p)
            && k1.procs[p].pid == p + 1 && k1.procs[p].state.Runnable? && Rooted(k1, p)
            && k1.procs[p].shm == NoMappings()
            && Layout(k1, p, image)
  {
    hide Base, KeepsOthers, BuildSpace, Layout, NoMappings, Policy, ObjectsOk, CanCreate;
    CreateReturnsIff(k, image);
    if CreateProcess(k, image).Done? {
      var p := FindProcSlot(k.procs, 0);
      assert ProcOk(k, p);
      BuildSpaceFacts(k, p, image);
      var k1 := BuildSpace(k, p, image).value;
      Relabel(k1, p, p + 1, Runnable, image);
      KeepsRelabel(k, k1, p, p + 1, Runnable);
    }
  }

  lemma KeepsRelabel(k: Kernel, k1: Kernel, p: int, pid: int, state: ProcState)
    requires KeepsOthers(k, k1, p) && IsProc(k, p) && IsProc(k1, p) && k.procs[p].currentIdx == 0
    requires KeepsOthers(k1, Relabelled(k1, p, pid, state), p)
    ensures KeepsOthers(k, Relabelled(k1, p, pid, state), p)
  {
    KeepsTrans(k, k1, Relabelled(k1, p, pid, state), p);
  }

  lemma SlotUnmapped(k: Kernel, p: int)
    requires Inv(k) && IsProc(k, p) && k.procs[p].state.ProcUnused?
    ensures k.procs[p].currentIdx == 0
    ensures |k.procs[p].shm| == PROC_SHM_MAX && forall s :: 0 <= s < PROC_SHM_MAX ==> !k.procs[p].shm[s].used
  {
    assert ProcOk(k, p);
    assert SpacePolicy(k, p);
  }

  lemma CreateObjects(k: Kernel, k1: Kernel, p: int)
    requires Inv(k) && IsProc(k, p) && k.procs[p].state.ProcUnused?
    requires OnlyProc(k, k1, p) && KeepsOthers(k, k1, p) && k1.procs[p].shm == NoMappings()
    ensures ObjectsOk(k1)
  {
    hide Policy, Base;
    SlotUnmapped(k, p);
    forall i | 0 <= i < |k.objs| ensures ObjectOk(k1, i) {
      assert ObjectOk(k, i);
      if k.objs[i].used {
        assert Holds(k, OfObject(i), k.objs[i].region);
        CountRefsUpdate(k.procs, p, k1.procs[p], k.objs[i].id);
        CountNone(k.procs[p].shm, k.objs[i].id);
        CountNone(k1.procs[p].shm, k.objs[i].id);
      }
    }
  }

  lemma CreatePolicy(k: Kernel, k1: Kernel, p: int, image: seq<Byte>)
    requires Inv(k) && Base(k1) && IsProc(k, p) && OnlyProc(k, k1, p) && KeepsOthers(k, k1, p)
    requires Rooted(k1, p) && k1.procs[p].shm == NoMappings() && Layout(k1, p, image)
    ensures Policy(k1)
  {
    hide Base, KeepsOthers, SpacePolicy, ObjectsOk, ProcsOk;
    forall q | IsProc(k1, q) ensures |k1.procs[q].shm| == PROC_SHM_MAX && SpacePolicy(k1, q) {
      RootedBound(k1, q);
      if q == p {
        LayoutPolicy(k1, p, image);
      } else {
        RootedBound(k, q);
        PolicyKept(k, k1, p, q);
      }
    }
  }

  /** The idle process, once there is one, is runnable. */
  predicate IdleOk(k: Kernel) {
    IsProc(k, k.idle) ==> k.procs[k.idle].state.Runnable?
  }

  /** `create_process` keeps the invariant: the new process is runnable with pid slot + 1. */
  lemma CreateInv(k: Kernel, image: seq<Byte>)
    requires Inv(k) && IdleOk(k) && CreateProcess(k, image).Done?
    ensures Inv(CreateProcess(k, image).value.0)
  {
    hide Base, KeepsOthers, Policy, ObjectsOk, Layout, CreateProcess, CanCreate;
    CreateFacts(k, image);
    var (k1, p) := CreateProcess(k, image).value;
    CreateObjects(k, k1, p);
    CreatePolicy(k, k1, p, image);
    CreateProcs(k, k1, p);
  }

  lemma CreateProcs(k: Kernel, k1: Kernel, p: int)
    requires ProcsOk(k) && IsProc(k, p) && OnlyProc(k, k1, p) && p != k.idle
    requires k1.procs[p].pid == p + 1 && k1.procs[p].state.Runnable? && Rooted(k1, p)
    ensures ProcsOk(k1)
  {
    forall q | IsProc(k1, q) ensures ProcOk(k1, q) {
      assert ProcOk(k, q);
    }
  }

  // ---- the image, byte by byte ----

  /** The byte that process `p` reads at `vaddr`. */
  function ByteAt(k: Kernel, p: int, vaddr: int): Option<Byte>
    requires IsProc(k, p)
  {
    match Translate(k, p, Vpn(vaddr))
    case None => None
    case Some(leaf) => if leaf.ppn in k.heap.mem then Some(k.heap.mem[leaf.ppn][vaddr % PAGE_SIZE]) else None
  }

  lemma ImageByte(image: seq<Byte>, i: nat, j: nat)
    requires i * PAGE_SIZE < |image| && j < PAGE_SIZE
    ensures ImagePage(image, i * PAGE_SIZE)[j] == if i * PAGE_SIZE + j < |image| then image[i * PAGE_SIZE + j] else 0
  {
  }

  lemma OffsetParts(off: nat)
    requires off < PROC_REGION_MAX * PAGE_SIZE
    ensures Vpn(USER_BASE + off) == USER_VPN + off / PAGE_SIZE && (USER_BASE + off) % PAGE_SIZE == off % PAGE_SIZE
  {
  }

  /** `create_process` loads faithfully every image that fits: the new process finds every image byte at
      `USER_BASE` plus its offset, and zeros in the rest of the last page. */
  lemma ImageLoaded(k: Kernel, image: seq<Byte>, off: nat)
    requires Inv(k) && CanCreate(k, image) && off < PageCount(image) * PAGE_SIZE
    ensures CreateProcess(k, image).Done?
    ensures var (k1, p) := CreateProcess(k, image).value;
            ByteAt(k1, p, USER_BASE + off) == Some(if off < |image| then image[off] else 0)
  {
    hide Base, KeepsOthers, CreateProcess, NoMappings, Inv, Private, Walk, ImagePage, CanCreate;
    CreateFacts(k, image);
    var (k1, p) := CreateProcess(k, image).value;
    var i, j := off / PAGE_SIZE, off % PAGE_SIZE;
    assert i < PageCount(image) && i * PAGE_SIZE < |image|;
    assert PageLoaded(k1, p, image, i);
    OffsetParts(off);
    ImageByte(image, i, j);
  }
}
