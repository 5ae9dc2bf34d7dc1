/** When `create_process` and `shm_attach` return: the pages they need, and the 64 region indices a
    process can record (include/process.h). */
module Capacity {
  import opened Machine
  import opened Regions
  import opened Heap
  import opened Room
  import opened PageTables
  import opened KernelState
  import opened Ownership
  import opened Mapping
  import opened Creation
  import opened Invariant

  // ---- a page allocated and recorded, as seen by the two tables that can run out ----

  /** The region table, and how many indices a process has recorded. */
  datatype Meter = Meter(rs: Table, used: nat)

  /** `c` pages allocated and recorded in a row; the allocation comes before the record. */
  function Pay(m: Meter, c: nat): Outcome<Meter>
    decreases c
  {
    if c == 0 then Done(m)
    else
      var rs1 :- TakePage(m.rs);
      if m.used >= PROC_REGION_MAX then Stopped(RegionTableFull) else Pay(Meter(rs1, m.used + 1), c - 1)
  }

  lemma {:induction false} PayAdd(m: Meter, a: nat, b: nat)
    ensures Pay(m, a + b) == if Pay(m, a).Done? then Pay(Pay(m, a).value, b) else Pay(m, a)
    decreases a
  {
    hide TakePage;
    if a > 0 && TakePage(m.rs).Done? && m.used < PROC_REGION_MAX {
      PayAdd(Meter(TakePage(m.rs).value, m.used + 1), a - 1, b);
    }
  }

  /** Paying for `c` pages succeeds exactly when the allocator has them and the record has room, and
      otherwise stops for whichever runs out first. */
  lemma {:induction false} PayOutcome(m: Meter, c: nat)
    requires m.used <= PROC_REGION_MAX
    ensures var room := PROC_REGION_MAX - m.used;
            Pay(m, c) ==
            if c <= room then
              (if TakePages(m.rs, c).Done? then Done(Meter(TakePages(m.rs, c).value, m.used + c))
               else Stopped(OutOfMemory))
            else if TakePages(m.rs, room + 1).Done? then Stopped(RegionTableFull)
            else Stopped(OutOfMemory)
    decreases c
  {
    hide FindFit, FindUnused, Carve;
    if c > 0 && TakePage(m.rs).Done? && m.used < PROC_REGION_MAX {
      PayOutcome(Meter(TakePage(m.rs).value, m.used + 1), c - 1);
    }
  }

  // ---- what each step of create_process costs ----

  function MeterOf(k: Kernel, p: int): Meter
    requires IsProc(k, p)
  {
    Meter(k.heap.rs, k.procs[p].currentIdx)
  }

  /** The outcome `r` of a step of process `p` from `k` is that of recording `c` pages. */
  ghost predicate Costs(k: Kernel, p: int, r: Outcome<Kernel>, c: nat)
    requires IsProc(k, p)
  {
    match r
    case Done(k1) => IsProc(k1, p) && Pay(MeterOf(k, p), c) == Done(MeterOf(k1, p))
    case Stopped(why) => Pay(MeterOf(k, p), c) == Stopped(why)
  }

  lemma CostsThen(k: Kernel, p: int, r1: Outcome<Kernel>, c1: nat, r2: Outcome<Kernel>, c2: nat)
    requires IsProc(k, p) && Costs(k, p, r1, c1)
    requires if r1.Done? then Costs(r1.value, p, r2, c2) else r2 == r1
    ensures Costs(k, p, r2, c1 + c2)
  {
    hide Pay;
    PayAdd(MeterOf(k, p), c1, c2);
  }

  /** The second-level tables of `p` are exactly those of the 4 MB ranges in `vs`. */
  ghost predicate TablesAt(k: Kernel, p: int, vs: set<int>)
    requires IsProc(k, p)
  {
    forall v :: 0 <= v < WORDS_PER_PAGE ==> (HasTable(k.heap.mem, k.procs[p].Root(), v) <==> v in vs)
  }

  function Cost(vs: set<int>, v: int): nat {
    if v in vs then 0 else 1
  }

  lemma PageCosts(k: Kernel, p: int)
    requires IsProc(k, p) && |k.procs[p].regions| == PROC_REGION_MAX
    ensures match AllocPageFor(k, p)
            case Done(v) => Pay(MeterOf(k, p), 1) == Done(MeterOf(v.0, p))
            case Stopped(why) => Pay(MeterOf(k, p), 1) == Stopped(why)
  {
    hide FindFit, FindUnused, Carve;
    var m := MeterOf(k, p);
    assert TakePage(m.rs).Done? ==>
      Pay(Meter(TakePage(m.rs).value, m.used + 1), 0) == Done(Meter(TakePage(m.rs).value, m.used + 1));
  }

  /** Allocating a page for `p` leaves its root table alone. */
  lemma RootKept(k: Kernel, p: int)
    requires Base(k) && Rooted(k, p) && AllocPageFor(k, p).Done?
    ensures var (k1, t) := AllocPageFor(k, p).value;
            var root := k.procs[p].Root();
            && root in k.heap.mem && root in k1.heap.mem && k1.heap.mem[root] == k.heap.mem[root]
            && 0 <= t < VPNS
  {
    BaseOwned(k);
    var n := AllocFresh(k, p);
    var (k1, t) := AllocPageFor(k, p).value;
    FreshOwn(k, k1, p, n, t);
    FreshPage(k, k1, p, n, t);
    assert SpaceOk(k, p);
  }

  lemma EnsureTableCosts(k: Kernel, p: int, v1: int, vs: set<int>)
    requires Base(k) && Rooted(k, p) && 0 <= v1 < WORDS_PER_PAGE && TablesAt(k, p, vs)
    ensures Costs(k, p, EnsureTable(k, p, v1), Cost(vs, v1))
    ensures EnsureTable(k, p, v1).Done? ==> TablesAt(EnsureTable(k, p, v1).value, p, vs + {v1})
  {
    hide AllocPageFor, Pay;
    if v1 in vs {
      assert Pay(MeterOf(k, p), 0) == Done(MeterOf(k, p)) by { PayNone(MeterOf(k, p)); }
    } else {
      assert |k.procs[p].regions| == PROC_REGION_MAX;
      PageCosts(k, p);
      if AllocPageFor(k, p).Done? {
        RootKept(k, p);
        var (k1, t) := AllocPageFor(k, p).value;
        var root := k.procs[p].Root();
        forall v | 0 <= v < WORDS_PER_PAGE
          ensures HasTable(WithTable(k1.heap.mem, root, v1, t), root, v) <==> v in vs + {v1}
        {
          RootAfterInstall(k1.heap.mem, root, v1, t, v);
          assert HasTable(k1.heap.mem, root, v) == HasTable(k.heap.mem, root, v);
        }
      }
    }
  }

  lemma PayNone(m: Meter)
    ensures Pay(m, 0) == Done(m)
  {
  }

  lemma MapPageCosts(k: Kernel, p: int, vaddr: int, paddr: int, perm: Perm, vs: set<int>)
    requires Base(k) && Rooted(k, p) && TablesAt(k, p, vs)
    requires vaddr % PAGE_SIZE == 0 && paddr % PAGE_SIZE == 0
    ensures Costs(k, p, MapPage(k, p, vaddr, paddr, perm), Cost(vs, Vpn(vaddr) / 1024))
    ensures MapPage(k, p, vaddr, paddr, perm).Done? ==>
              TablesAt(MapPage(k, p, vaddr, paddr, perm).value, p, vs + {Vpn(vaddr) / 1024})
  {
    hide Base, EnsureTable, Pay;
    var vpn, root := Vpn(vaddr), k.procs[p].Root();
    EnsureTableCosts(k, p, vpn / 1024, vs);
    if EnsureTable(k, p, vpn / 1024).Done? {
      EnsureTableExtends(k, p, vpn / 1024);
      var mid := EnsureTable(k, p, vpn / 1024).value;
      ExtendsGives(k, mid, p);
      LeafKeepsRoot(mid, p, vpn, EncodePte(paddr / PAGE_SIZE, perm));
    }
  }

  lemma LeafKeepsRoot(k: Kernel, p: int, vpn: int, w: Word)
    requires Base(k) && Rooted(k, p) && 0 <= vpn < VPNS && HasTable(k.heap.mem, k.procs[p].Root(), vpn / 1024)
    ensures var root := k.procs[p].Root();
            forall v :: 0 <= v < WORDS_PER_PAGE ==>
              HasTable(WithLeaf(k.heap.mem, root, vpn, w), root, v) == HasTable(k.heap.mem, root, v)
  {
    assert SpaceOk(k, p);
    assert TableOf(k.heap.mem, k.procs[p].Root(), vpn / 1024) != k.procs[p].Root();
  }

  // ---- the identity maps ----

  /** Bytes covered by one second-level table. */
  const SPAN := 0x40_0000

  const KERNEL_V1 := KERNEL_BASE / SPAN

  /** The 4 MB ranges from the kernel base on, `n` of them. */
  function KernelRanges(n: int): (vs: set<int>)
    ensures forall v :: v in vs <==> KERNEL_V1 <= v < KERNEL_V1 + n
  {
    if n <= 0 then {} else KernelRanges(n - 1) + {KERNEL_V1 + n - 1}
  }

  /** Second-level tables for the kernel range up to `pa`. */
  function TablesBelow(pa: int): int {
    if pa <= KERNEL_BASE then 0 else (pa - 1) / SPAN - KERNEL_V1 + 1
  }

  lemma SpanStep(pa: int, q: int)
    requires pa % PAGE_SIZE == 0 && q == pa / SPAN
    ensures (pa + PAGE_SIZE - 1) / SPAN == q
    ensures (pa - 1) / SPAN == q || (pa - 1) / SPAN == q - 1
  {
  }

  /** Mapping one page more needs a table exactly when it is the first page of its 4 MB range. */
  lemma RangeStep(pa: int)
    requires KERNEL_BASE <= pa < TWO_32 && pa % PAGE_SIZE == 0
    ensures var n, n1, v := TablesBelow(pa), TablesBelow(pa + PAGE_SIZE), Vpn(pa) / 1024;
            && 0 <= n <= n1
            && KernelRanges(n) + {v} == KernelRanges(n1)
            && Cost(KernelRanges(n), v) == n1 - n
  {
    var q := pa / SPAN;
    assert Vpn(pa) / 1024 == q;
    SpanStep(pa, q);
  }

  lemma {:induction false} TablesGrow(pa: int, hi: int)
    requires KERNEL_BASE <= pa <= hi
    ensures TablesBelow(pa) <= TablesBelow(hi)
  {
  }

  /** The kernel range costs one table for each 4 MB it touches. */
  lemma {:induction false} MapRangeCosts(k: Kernel, p: int, pa: int, hi: int)
    requires Base(k) && Rooted(k, p) && TablesAt(k, p, KernelRanges(TablesBelow(pa)))
    requires KERNEL_BASE <= pa <= hi < TWO_32 && pa % PAGE_SIZE == 0 && hi % PAGE_SIZE == 0
    ensures TablesBelow(pa) <= TablesBelow(hi)
    ensures Costs(k, p, MapRange(k, p, pa, hi), TablesBelow(hi) - TablesBelow(pa))
    ensures MapRange(k, p, pa, hi).Done? ==>
              TablesAt(MapRange(k, p, pa, hi).value, p, KernelRanges(TablesBelow(hi)))
    decreases hi - pa
  {
    hide Base, Extends, MapPage, TablesAt, Costs, KernelRanges, Cost, Vpn, TablesBelow;
    TablesGrow(pa, hi);
    if pa == hi {
      NoCost(k, p);
    } else {
      var n, n1 := TablesBelow(pa), TablesBelow(pa + PAGE_SIZE);
      RangeStep(pa);
      TablesGrow(pa + PAGE_SIZE, hi);
      MapPageCosts(k, p, pa, pa, KERNEL_PERM, KernelRanges(n));
      var r := MapPage(k, p, pa, pa, KERNEL_PERM);
      if r.Done? {
        MapPageRefines(k, p, pa, pa, KERNEL_PERM);
        ExtendsGives(k, r.value, p);
        MapRangeCosts(r.value, p, pa + PAGE_SIZE, hi);
      }
      CostsThen(k, p, r, n1 - n, MapRange(k, p, pa, hi), TablesBelow(hi) - n1);
    }
  }

  lemma NoCost(k: Kernel, p: int)
    requires IsProc(k, p)
    ensures Costs(k, p, Done(k), 0)
  {
  }

  /** The 4 MB range of the `i`-th device page. */
  function DeviceV1(i: nat): int
    requires i < |DEVICE_PADDRS|
  {
    DEVICE_PADDRS[i] / SPAN
  }

  function DeviceRanges(vs: set<int>, i: nat): set<int>
    requires i <= |DEVICE_PADDRS|
    decreases |DEVICE_PADDRS| - i
  {
    if i == |DEVICE_PADDRS| then vs else DeviceRanges(vs + {DeviceV1(i)}, i + 1)
  }

  function DeviceCost(vs: set<int>, i: nat): nat
    requires i <= |DEVICE_PADDRS|
    decreases |DEVICE_PADDRS| - i
  {
    if i == |DEVICE_PADDRS| then 0 else Cost(vs, DeviceV1(i)) + DeviceCost(vs + {DeviceV1(i)}, i + 1)
  }

  lemma {:induction false} MapDevicesCosts(k: Kernel, p: int, i: nat, vs: set<int>)
    requires Base(k) && Rooted(k, p) && TablesAt(k, p, vs) && i <= |DEVICE_PADDRS|
    ensures Costs(k, p, MapDevices(k, p, i), DeviceCost(vs, i))
    ensures MapDevices(k, p, i).Done? ==> TablesAt(MapDevices(k, p, i).value, p, DeviceRanges(vs, i))
    decreases |DEVICE_PADDRS| - i
  {
    hide Base, Extends, MapPage, TablesAt, Costs, Cost;
    if i == |DEVICE_PADDRS| {
      NoCost(k, p);
    } else {
      var pa := DEVICE_PADDRS[i];
      assert Vpn(pa) / 1024 == DeviceV1(i);
      MapPageCosts(k, p, pa, pa, DEVICE_PERM, vs);
      var r := MapPage(k, p, pa, pa, DEVICE_PERM);
      if r.Done? {
        MapPageRefines(k, p, pa, pa, DEVICE_PERM);
        ExtendsGives(k, r.value, p);
        MapDevicesCosts(r.value, p, i + 1, vs + {DeviceV1(i)});
      }
      CostsThen(k, p, r, Cost(vs, DeviceV1(i)), MapDevices(k, p, i), DeviceCost(vs + {DeviceV1(i)}, i + 1));
    }
  }

  /** The five device pages lie in two 4 MB ranges. */
  lemma DevicesCostTwo(vs: set<int>)
    requires 48 !in vs && 64 !in vs
    ensures DeviceCost(vs, 0) == 2 && DeviceRanges(vs, 0) == vs + {48, 64}
  {
    assert DeviceV1(0) == 64 && DeviceV1(1) == 64 && DeviceV1(2) == 48 && DeviceV1(3) == 48 && DeviceV1(4) == 48;
    var v1, v2, v3 := vs + {64}, vs + {64} + {48}, vs + {48, 64};
    assert v1 + {64} == v1 && v2 + {48} == v2 && v2 == v3;
    assert DeviceCost(v2, 5) == 0 && DeviceRanges(v2, 5) == v2;
    assert DeviceCost(v2, 4) == 0 && DeviceRanges(v2, 4) == v2;
    assert DeviceCost(v2, 3) == 0 && DeviceRanges(v2, 3) == v2;
    assert DeviceCost(v1, 2) == 1 && DeviceRanges(v1, 2) == v2;
    assert DeviceCost(v1, 1) == 1 && DeviceRanges(v1, 1) == v2;
  }

  // ---- the image ----

  const USER_V1 := USER_BASE / SPAN

  lemma ImageRange(i: nat)
    requires i < PROC_REGION_MAX
    ensures Vpn(USER_BASE + i * PAGE_SIZE) / 1024 == USER_V1
  {
    ImageVpn(i);
  }

  lemma FillCosts(k: Kernel, p: int, page: Page)
    requires Base(k) && Rooted(k, p)
    ensures match AllocPageFor(k, p)
            case Stopped(why) => Pay(MeterOf(k, p), 1) == Stopped(why)
            case Done(v) =>
              var k2 := SetMem(v.0, WritePage(v.0.heap.mem, v.1, page));
              Costs(k, p, Done(k2), 1) && forall vs :: TablesAt(k, p, vs) ==> TablesAt(k2, p, vs)
  {
    hide Base, AllocPageFor, Pay;
    BaseOwned(k);
    OwnedRegions(k, p);
    PageCosts(k, p);
    if AllocPageFor(k, p).Done? {
      RootKept(k, p);
      FillKeepsRoot(k, p);
    }
  }

  lemma OwnedRegions(k: Kernel, p: int)
    requires Owned(k) && IsProc(k, p)
    ensures |k.procs[p].regions| == PROC_REGION_MAX
  {
  }

  /** The page handed out is not the root table. */
  lemma FillKeepsRoot(k: Kernel, p: int)
    requires Base(k) && Rooted(k, p) && AllocPageFor(k, p).Done?
    ensures AllocPageFor(k, p).value.1 != k.procs[p].Root()
  {
    BaseOwned(k);
    var n := AllocFresh(k, p);
    FreshOwn(k, AllocPageFor(k, p).value.0, p, n, AllocPageFor(k, p).value.1);
    assert SpaceOk(k, p);
  }

  lemma LoadPageCosts(k: Kernel, p: int, image: seq<Byte>, i: nat, vs: set<int>)
    requires Base(k) && Rooted(k, p) && i * PAGE_SIZE < |image| && i < k.procs[p].currentIdx <= PROC_REGION_MAX
    requires TablesAt(k, p, vs)
    ensures Costs(k, p, LoadPage(k, p, image, i * PAGE_SIZE), 1 + Cost(vs, USER_V1))
    ensures LoadPage(k, p, image, i * PAGE_SIZE).Done? ==>
              TablesAt(LoadPage(k, p, image, i * PAGE_SIZE).value, p, vs + {USER_V1})
  {
    hide Base, Extends, MapPage, AllocPageFor, TablesAt, Pay, Cost, WritePage, ImagePage, Private, SameWalk, Vpn;
    var off := i * PAGE_SIZE;
    FillCosts(k, p, ImagePage(image, off));
    if AllocPageFor(k, p).Done? {
      var t := FillFacts(k, p, ImagePage(image, off));
      var k1 := AllocPageFor(k, p).value.0;
      var k2 := SetMem(k1, WritePage(k1.heap.mem, t, ImagePage(image, off)));
      ExtendsGives(k, k2, p);
      if i < PROC_REGION_MAX {
        ImageRange(i);
        MapPageCosts(k2, p, USER_BASE + off, t * PAGE_SIZE, IMAGE_PERM, vs);
        CostsThen(k, p, Done(k2), 1, LoadPage(k, p, image, off), Cost(vs, USER_V1));
      }
    } else {
      CostsThen(k, p, LoadPage(k, p, image, off), 1, LoadPage(k, p, image, off), Cost(vs, USER_V1));
    }
  }

  /** The image costs a page each, and one table for the first. */
  lemma {:induction false} LoadImageCosts(k: Kernel, p: int, image: seq<Byte>, i: nat, vs: set<int>)
    requires Base(k) && Rooted(k, p) && i < k.procs[p].currentIdx <= PROC_REGION_MAX
    requires TablesAt(k, p, vs) && i <= PageCount(image)
    ensures Costs(k, p, LoadImage(k, p, image, i * PAGE_SIZE),
                  if i == PageCount(image) then 0 else PageCount(image) - i + Cost(vs, USER_V1))
    ensures LoadImage(k, p, image, i * PAGE_SIZE).Done? ==>
              TablesAt(LoadImage(k, p, image, i * PAGE_SIZE).value, p,
                       if i == PageCount(image) then vs else vs + {USER_V1})
    decreases PageCount(image) - i
  {
    hide Base, Extends, LoadPage, TablesAt, Costs, PageLoaded, Walk;
    if i == PageCount(image) {
      NoCost(k, p);
    } else {
      LoadPageCosts(k, p, image, i, vs);
      var r := LoadPage(k, p, image, i * PAGE_SIZE);
      var vs1 := vs + {USER_V1};
      assert (i + 1) * PAGE_SIZE == i * PAGE_SIZE + PAGE_SIZE;
      if r.Done? {
        LoadPageFacts(k, p, image, i);
        ExtendsGives(k, r.value, p);
        LoadImageCosts(r.value, p, image, i + 1, vs1);
        assert vs1 + {USER_V1} == vs1;
      }
      CostsThen(k, p, r, 1 + Cost(vs, USER_V1), LoadImage(k, p, image, i * PAGE_SIZE), PageCount(image) - i - 1);
    }
  }

  // ---- create_process ----

  /** How many region indices a new process records: the root, the tables of the kernel range, two
      tables for the devices, and for a non-empty image one table and its pages. */
  function Needed(hi: int, image: seq<Byte>): int {
    1 + TablesBelow(hi) + 2 + if image == [] then 0 else 1 + PageCount(image)
  }

  /** The 4 MB ranges a new process has tables for. */
  function CreatedRanges(hi: int, image: seq<Byte>): set<int> {
    KernelRanges(TablesBelow(hi)) + {48, 64} + if image == [] then {} else {USER_V1}
  }

  lemma NewRootCosts(k: Kernel, p: int)
    requires Base(k) && IsProc(k, p) && k.procs[p].currentIdx == 0
    ensures Costs(k, p, NewRoot(k, p), 1)
    ensures NewRoot(k, p).Done? ==> TablesAt(NewRoot(k, p).value, p, {})
  {
    hide Base, AllocPageFor, Pay;
    var kc := Cleared(k, p);
    ClearedOwned(k, p);
    OwnedRegions(kc, p);
    PageCosts(kc, p);
    if AllocPageFor(kc, p).Done? {
      var n := AllocFresh(kc, p);
      var k1, t := AllocPageFor(kc, p).value.0, AllocPageFor(kc, p).value.1;
      FreshPage(kc, k1, p, n, t);
      forall v | 0 <= v < WORDS_PER_PAGE ensures !HasTable(k1.heap.mem, t, v) {
        ZeroWord(v);
      }
    }
  }

  lemma BuildSpaceCosts(k: Kernel, p: int, image: seq<Byte>)
    requires Base(k) && IsProc(k, p) && k.procs[p].currentIdx == 0
    ensures 0 <= Needed(k.ram.hi, image) && Costs(k, p, BuildSpace(k, p, image), Needed(k.ram.hi, image))
    ensures BuildSpace(k, p, image).Done? ==> TablesAt(BuildSpace(k, p, image).value, p, CreatedRanges(k.ram.hi, image))
  {
    hide Base, Extends, KeepsOthers, NewRoot, MapRange, MapDevices, LoadImage, TablesAt, Costs, Walk, NoMappings,
         DeviceVpn, PageLoaded;
    var hi := k.ram.hi;
    var ks := KernelRanges(TablesBelow(hi));
    BaseRam(k);
    NewRootCosts(k, p);
    var r1 := NewRoot(k, p);
    if r1.Stopped? {
      CostsThen(k, p, r1, 1, BuildSpace(k, p, image), Needed(hi, image) - 1);
    } else {
      NewRootFacts(k, p);
      assert KernelRanges(0) == {};
      MapRangeCosts(r1.value, p, KERNEL_BASE, hi);
      var r2 := MapRange(r1.value, p, KERNEL_BASE, hi);
      CostsThen(k, p, r1, 1, r2, TablesBelow(hi));
      if r2.Stopped? {
        CostsThen(k, p, r2, 1 + TablesBelow(hi), BuildSpace(k, p, image), Needed(hi, image) - 1 - TablesBelow(hi));
      } else {
        MapRangeFacts(r1.value, p, KERNEL_BASE, hi);
        ExtendsGives(r1.value, r2.value, p);
        BuildRestCosts(r2.value, p, image, ks);
        CostsThen(k, p, r2, 1 + TablesBelow(hi), BuildSpace(k, p, image), Needed(hi, image) - 1 - TablesBelow(hi));
      }
    }
  }

  /** Devices and image, once the kernel range is mapped. */
  function BuildRest(k: Kernel, p: int, image: seq<Byte>): Outcome<Kernel>
    requires IsProc(k, p)
  {
    var k3 :- MapDevices(k, p, 0);
    LoadImage(k3, p, image, 0)
  }

  lemma BuildRestCosts(k: Kernel, p: int, image: seq<Byte>, vs: set<int>)
    requires Base(k) && Rooted(k, p) && TablesAt(k, p, vs) && k.procs[p].currentIdx <= PROC_REGION_MAX
    requires 48 !in vs && 64 !in vs && USER_V1 !in vs
    ensures Costs(k, p, BuildRest(k, p, image), 2 + if image == [] then 0 else 1 + PageCount(image))
    ensures BuildRest(k, p, image).Done? ==>
              TablesAt(BuildRest(k, p, image).value, p, vs + {48, 64} + if image == [] then {} else {USER_V1})
  {
    hide Base, Extends, MapDevices, LoadImage, TablesAt, Costs, Walk, DeviceVpn, PageLoaded;
    var c := if image == [] then 0 else 1 + PageCount(image);
    MapDevicesCosts(k, p, 0, vs);
    DevicesCostTwo(vs);
    var r := MapDevices(k, p, 0);
    if r.Done? {
      MapDevicesFacts(k, p, 0);
      ExtendsGives(k, r.value, p);
      assert (PageCount(image) == 0) == (image == []);
      var vs1 := vs + {48, 64};
      assert vs1 + {} == vs1;
      LoadImageCosts(r.value, p, image, 0, vs1);
    }
    CostsThen(k, p, r, 2, BuildRest(k, p, image), c);
  }

  lemma BaseRam(k: Kernel)
    requires Base(k)
    ensures k.ram.hi % PAGE_SIZE == 0 && KERNEL_BASE < k.ram.hi < TWO_32
  {
  }

  /** What `create_process` stops for, exactly. */
  lemma CreateOutcome(k: Kernel, image: seq<Byte>)
    requires Inv(k)
    ensures var need := Needed(k.ram.hi, image);
            0 <= need &&
            match CreateProcess(k, image)
            case Done(v) =>
              && FindProcSlot(k.procs, 0) == v.1 && need <= PROC_REGION_MAX
              && TakePages(k.heap.rs, need) == Done(v.0.heap.rs)
              && v.0.procs[v.1].currentIdx == need
              && TablesAt(v.0, v.1, CreatedRanges(k.ram.hi, image))
            case Stopped(why) =>
              if FindProcSlot(k.procs, 0) < 0 then why == NoProcessSlot
              else if need <= PROC_REGION_MAX then why == OutOfMemory && TakePages(k.heap.rs, need).Stopped?
              else why == if TakePages(k.heap.rs, PROC_REGION_MAX + 1).Done? then RegionTableFull else OutOfMemory
  {
    hide Base, BuildSpace, TablesAt, Pay, Policy, ObjectsOk, TakePages;
    var p := FindProcSlot(k.procs, 0);
    BaseRam(k);
    if p >= 0 {
      assert ProcOk(k, p);
      BuildSpaceCosts(k, p, image);
      PayOutcome(MeterOf(k, p), Needed(k.ram.hi, image));
      if BuildSpace(k, p, image).Done? {
        RelabelTables(BuildSpace(k, p, image).value, p, p + 1, Runnable, CreatedRanges(k.ram.hi, image));
      }
    }
  }

  lemma RelabelTables(k: Kernel, p: int, pid: int, state: ProcState, vs: set<int>)
    requires IsProc(k, p) && TablesAt(k, p, vs)
    ensures TablesAt(SetProc(k, p, k.procs[p].(pid := pid, state := state)), p, vs)
  {
  }

  /** A process slot is unused, the record is long enough, and the allocator has the pages. */
  predicate CanCreate(k: Kernel, image: seq<Byte>) {
    var need := Needed(k.ram.hi, image);
    FindProcSlot(k.procs, 0) >= 0 && 0 <= need <= PROC_REGION_MAX && TakePages(k.heap.rs, need).Done?
  }

  /** `need` pages are free and as many slots unused. */
  predicate HasRoom(k: Kernel, need: int) {
    need * PAGE_SIZE <= FreeBytes(k.heap.rs) && LiveCount(k.heap.rs) + need <= MAX_REGIONS
  }

  /** With room for the pages it needs, up to 65, `create_process` returns if and only if it needs at
      most 64 region indices, and otherwise it stores past the end of the record. */
  lemma CreateFitsIff(k: Kernel, image: seq<Byte>)
    requires Inv(k) && FindProcSlot(k.procs, 0) >= 0
    requires HasRoom(k, Needed(k.ram.hi, image)) || HasRoom(k, PROC_REGION_MAX + 1)
    ensures CreateProcess(k, image).Done? <==> Needed(k.ram.hi, image) <= PROC_REGION_MAX
    ensures CreateProcess(k, image) == Stopped(RegionTableFull) <==> Needed(k.ram.hi, image) > PROC_REGION_MAX
  {
    hide Policy, ObjectsOk, ProcsOk, SpaceOk, Shape, Exclusive, HeldAllocated, Tiled, TakePages, CreateProcess,
         TablesAt, FreeBytes, LiveCount;
    CreateOutcome(k, image);
    var need := Needed(k.ram.hi, image);
    var c := if need <= PROC_REGION_MAX then need else PROC_REGION_MAX + 1;
    assert HasRoom(k, c);
    RoomTakes(k.heap.rs, k.ram, c);
  }

  /** `create_process` returns if and only if `CanCreate`. */
  lemma CreateReturnsIff(k: Kernel, image: seq<Byte>)
    requires Inv(k)
    ensures CreateProcess(k, image).Done? <==> CanCreate(k, image)
  {
    hide Inv, CreateProcess, TablesAt;
    CreateOutcome(k, image);
  }

  // ---- shm_attach and shm_get ----

  /** `shm_attach` gets as far as mapping the page. */
  predicate Attaches(k: Kernel, p: int, id: int)
    requires IsProc(k, p)
  {
    FindById(k.objs, id, 0) >= 0 && FindMappingSlot(k.procs[p].shm, 0) >= 0
  }

  /** The shared window lies in one 4 MB range. */
  const SHM_V1 := SHM_USER_BASE / SPAN

  lemma WindowRange(slot: int)
    requires 0 <= slot < PROC_SHM_MAX
    ensures SlotVaddr(slot) % PAGE_SIZE == 0 && Vpn(SlotVaddr(slot)) / 1024 == SHM_V1
  {
  }

  lemma ObjectAligned(k: Kernel, oi: int)
    requires Inv(k) && 0 <= oi < |k.objs| && k.objs[oi].used
    ensures k.objs[oi].pa % PAGE_SIZE == 0
  {
    hide Policy, ProcsOk, SpaceOk;
    assert ObjectOk(k, oi);
    assert Holds(k, OfObject(oi), k.objs[oi].region);
    AllocatedInRam(k.heap, k.ram, k.objs[oi].region);
  }

  /** `shm_attach` has to allocate: only the first attach of a process does, for the table of the
      shared window. */
  predicate AttachPays(k: Kernel, p: int, id: int)
    requires IsProc(k, p)
  {
    Attaches(k, p, id) && !HasTable(k.heap.mem, k.procs[p].Root(), SHM_V1)
  }

  /** What `shm_attach` stops for, exactly, and what it takes from the allocator. */
  lemma AttachOutcome(k: Kernel, p: int, id: int)
    requires Inv(k) && Rooted(k, p)
    ensures match ShmAttach(k, p, id)
            case Done(v) =>
              && (AttachPays(k, p, id) ==>
                    TakePage(k.heap.rs) == Done(v.0.heap.rs) && k.procs[p].currentIdx < PROC_REGION_MAX)
              && (!AttachPays(k, p, id) ==> v.0.heap.rs == k.heap.rs)
              && (Attaches(k, p, id) ==> HasTable(v.0.heap.mem, k.procs[p].Root(), SHM_V1))
            case Stopped(why) =>
              && AttachPays(k, p, id)
              && (if TakePage(k.heap.rs).Done? then why == RegionTableFull && k.procs[p].currentIdx == PROC_REGION_MAX
                  else why == OutOfMemory)
  {
    hide Inv, MapPage, Pay, TakePage;
    if Attaches(k, p, id) {
      var oi, slot := FindById(k.objs, id, 0), FindMappingSlot(k.procs[p].shm, 0);
      InvBase(k, p);
      ObjectAligned(k, oi);
      WindowRange(slot);
      var vs := set v | 0 <= v < WORDS_PER_PAGE && HasTable(k.heap.mem, k.procs[p].Root(), v);
      MapPageCosts(k, p, SlotVaddr(slot), k.objs[oi].pa, SHM_PERM, vs);
      OnePage(MeterOf(k, p));
      PayNone(MeterOf(k, p));
    }
  }

  lemma InvBase(k: Kernel, p: int)
    requires Inv(k) && IsProc(k, p)
    ensures Base(k) && |k.procs[p].shm| == PROC_SHM_MAX && k.procs[p].currentIdx <= PROC_REGION_MAX
  {
  }

  lemma OnePage(m: Meter)
    ensures Pay(m, 1) ==
            if TakePage(m.rs).Stopped? then Stopped(OutOfMemory)
            else if m.used >= PROC_REGION_MAX then Stopped(RegionTableFull)
            else Done(Meter(TakePage(m.rs).value, m.used + 1))
  {
    hide FindFit, FindUnused, Carve;
    if TakePage(m.rs).Done? {
      PayNone(Meter(TakePage(m.rs).value, m.used + 1));
    }
  }

  /** `shm_get` stops exactly when it has to make an object and there is no page for it. */
  lemma GetOutcome(k: Kernel, key: int)
    ensures ShmGet(k, key).Stopped? <==>
            0 < key && FindByKey(k.objs, key, 0) < 0 && FindObjectSlot(k.objs, 0) >= 0 && TakePage(k.heap.rs).Stopped?
    ensures ShmGet(k, key).Stopped? ==> ShmGet(k, key) == Stopped(OutOfMemory)
  {
    hide FindFit, FindUnused, Carve;
  }
}
