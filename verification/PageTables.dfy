/** Two-level Sv32 page tables laid out in physical memory, and the plain map from virtual to
    physical pages that they represent (section 4.3 of the RISC-V Privileged Architecture). */
module PageTables {
  import opened Machine

  /** Number of virtual pages: a 20-bit number, ten bits per level. */
  const VPNS := 0x10_0000

  function Load(mem: Memory, ppn: int, i: int): Word
    requires 0 <= i < WORDS_PER_PAGE
  {
    if ppn in mem then WordAt(mem[ppn], i) else 0
  }

  function Store(mem: Memory, ppn: int, i: int, w: Word): (mem1: Memory)
    requires 0 <= i < WORDS_PER_PAGE
    ensures mem1.Keys == mem.Keys
    ensures forall p :: p in mem && p != ppn ==> mem1[p] == mem[p]
  {
    if ppn in mem then mem[ppn := SetWord(mem[ppn], i, w)] else mem
  }

  lemma LoadAfterStore(mem: Memory, ppn: int, i: int, w: Word, p: int, j: int)
    requires 0 <= i < WORDS_PER_PAGE && 0 <= j < WORDS_PER_PAGE && ppn in mem
    ensures Load(Store(mem, ppn, i, w), p, j) == if p == ppn && i == j then w else Load(mem, p, j)
  {
    if p == ppn {
      WordAfterSet(mem[ppn], i, w, j);
    }
  }

  /** The translation the hardware finds for a virtual page. */
  function Walk(mem: Memory, root: int, vpn: int): Option<Leaf>
    requires 0 <= vpn < VPNS
  {
    var w := Load(mem, root, vpn / 1024);
    if PteValid(w) then DecodePte(Load(mem, PtePpn(w), vpn % 1024)) else None
  }

  predicate HasTable(mem: Memory, root: int, v1: int)
    requires 0 <= v1 < WORDS_PER_PAGE
  {
    PteValid(Load(mem, root, v1))
  }

  function TableOf(mem: Memory, root: int, v1: int): int
    requires 0 <= v1 < WORDS_PER_PAGE
  {
    PtePpn(Load(mem, root, v1))
  }

  /** The table at `root` is well formed inside the pages `own`: each valid first-level entry is a
      pointer to a second-level table of its own among them. */
  ghost predicate Tables(mem: Memory, root: int, own: set<int>) {
    && root in own
    && own <= mem.Keys
    && (forall v :: 0 <= v < WORDS_PER_PAGE && HasTable(mem, root, v) ==>
          && TableOf(mem, root, v) in own
          && TableOf(mem, root, v) != root
          && PtePerm(Load(mem, root, v)) == NO_PERM)
    && (forall u, v :: 0 <= u < v < WORDS_PER_PAGE && HasTable(mem, root, u) && HasTable(mem, root, v) ==>
          TableOf(mem, root, u) != TableOf(mem, root, v))
  }

  /** `ppn` holds the root or a second-level table. */
  ghost predicate IsTablePage(mem: Memory, root: int, ppn: int) {
    ppn == root ||
    exists v :: 0 <= v < WORDS_PER_PAGE && HasTable(mem, root, v) && TableOf(mem, root, v) == ppn
  }

  ghost predicate SameWalk(mem: Memory, mem1: Memory, root: int) {
    forall vpn :: 0 <= vpn < VPNS ==> Walk(mem1, root, vpn) == Walk(mem, root, vpn)
  }

  ghost predicate AgreeOn(mem: Memory, mem1: Memory, own: set<int>) {
    own <= mem.Keys && own <= mem1.Keys && forall p :: p in own ==> mem1[p] == mem[p]
  }

  /** Stores outside the pages of an address space do not touch its translations. */
  lemma WalkFrame(mem: Memory, mem1: Memory, root: int, own: set<int>)
    requires Tables(mem, root, own) && AgreeOn(mem, mem1, own)
    ensures Tables(mem1, root, own) && SameWalk(mem, mem1, root)
    ensures forall p :: IsTablePage(mem1, root, p) <==> IsTablePage(mem, root, p)
  {
    assert forall v :: 0 <= v < WORDS_PER_PAGE ==> Load(mem1, root, v) == Load(mem, root, v);
    forall p ensures IsTablePage(mem1, root, p) <==> IsTablePage(mem, root, p) {
      if v :| 0 <= v < WORDS_PER_PAGE && HasTable(mem, root, v) && TableOf(mem, root, v) == p {
        assert HasTable(mem1, root, v) && TableOf(mem1, root, v) == p;
      }
      if v :| 0 <= v < WORDS_PER_PAGE && HasTable(mem1, root, v) && TableOf(mem1, root, v) == p {
        assert HasTable(mem, root, v) && TableOf(mem, root, v) == p;
      }
    }
  }

  ghost predicate DiffersAt(mem: Memory, mem1: Memory, page: int) {
    mem1.Keys == mem.Keys && forall q :: q in mem && q != page ==> mem1[q] == mem[q]
  }

  /** Nor does a store into a page that is not one of its tables. */
  lemma NonTableStore(mem: Memory, mem1: Memory, root: int, own: set<int>, page: int)
    requires Tables(mem, root, own) && DiffersAt(mem, mem1, page) && !IsTablePage(mem, root, page)
    ensures Tables(mem1, root, own) && SameWalk(mem, mem1, root)
    ensures forall p :: IsTablePage(mem1, root, p) <==> IsTablePage(mem, root, p)
  {
    assert forall v :: 0 <= v < WORDS_PER_PAGE ==> Load(mem1, root, v) == Load(mem, root, v);
    forall p ensures IsTablePage(mem1, root, p) <==> IsTablePage(mem, root, p) {
      if v :| 0 <= v < WORDS_PER_PAGE && HasTable(mem, root, v) && TableOf(mem, root, v) == p {
        assert HasTable(mem1, root, v) && TableOf(mem1, root, v) == p;
      }
      if v :| 0 <= v < WORDS_PER_PAGE && HasTable(mem1, root, v) && TableOf(mem1, root, v) == p {
        assert HasTable(mem, root, v) && TableOf(mem, root, v) == p;
      }
    }
    forall vpn | 0 <= vpn < VPNS ensures Walk(mem1, root, vpn) == Walk(mem, root, vpn) {
      if HasTable(mem, root, vpn / 1024) {
        assert IsTablePage(mem, root, TableOf(mem, root, vpn / 1024));
      }
    }
  }

  lemma FrameMono(mem: Memory, root: int, own: set<int>, own1: set<int>)
    requires Tables(mem, root, own) && own <= own1 <= mem.Keys
    ensures Tables(mem, root, own1)
  {
  }

  // ---- a fresh second-level table ----

  function WithTable(mem: Memory, root: int, v1: int, t: int): Memory
    requires 0 <= v1 < WORDS_PER_PAGE
  {
    Store(mem, root, v1, EncodePte(t, NO_PERM))
  }

  lemma RootAfterInstall(mem: Memory, root: int, v1: int, t: int, v: int)
    requires root in mem && 0 <= v1 < WORDS_PER_PAGE && 0 <= t < VPNS && 0 <= v < WORDS_PER_PAGE
    ensures v != v1 ==> Load(WithTable(mem, root, v1, t), root, v) == Load(mem, root, v)
    ensures HasTable(WithTable(mem, root, v1, t), root, v1)
    ensures TableOf(WithTable(mem, root, v1, t), root, v1) == t
    ensures PtePerm(Load(WithTable(mem, root, v1, t), root, v1)) == NO_PERM
  {
    LoadAfterStore(mem, root, v1, EncodePte(t, NO_PERM), root, v);
    LoadAfterStore(mem, root, v1, EncodePte(t, NO_PERM), root, v1);
    PteRoundTrip(t, NO_PERM);
  }

  lemma InstallTables(mem: Memory, root: int, own: set<int>, v1: int, t: int)
    requires Tables(mem, root, own)
    requires 0 <= v1 < WORDS_PER_PAGE && !HasTable(mem, root, v1)
    requires t in mem && t !in own && 0 <= t < VPNS
    ensures Tables(WithTable(mem, root, v1, t), root, own + {t})
    ensures forall p :: IsTablePage(WithTable(mem, root, v1, t), root, p) <==> IsTablePage(mem, root, p) || p == t
  {
    var mem1 := WithTable(mem, root, v1, t);
    forall v | 0 <= v < WORDS_PER_PAGE
      ensures v != v1 ==> Load(mem1, root, v) == Load(mem, root, v)
    {
      RootAfterInstall(mem, root, v1, t, v);
    }
    RootAfterInstall(mem, root, v1, t, v1);
    forall p ensures IsTablePage(mem1, root, p) <==> IsTablePage(mem, root, p) || p == t {
      if v :| 0 <= v < WORDS_PER_PAGE && HasTable(mem, root, v) && TableOf(mem, root, v) == p {
        assert HasTable(mem1, root, v) && TableOf(mem1, root, v) == p;
      }
      if v :| 0 <= v < WORDS_PER_PAGE && HasTable(mem1, root, v) && TableOf(mem1, root, v) == p {
        assert v != v1 ==> HasTable(mem, root, v) && TableOf(mem, root, v) == p;
      }
    }
  }

  /** Linking in a zeroed table leaves every translation as it was. */
  lemma InstallWalk(mem: Memory, root: int, own: set<int>, v1: int, t: int, vpn: int)
    requires Tables(mem, root, own)
    requires 0 <= v1 < WORDS_PER_PAGE && !HasTable(mem, root, v1)
    requires t in mem && t !in own && 0 <= t < VPNS && mem[t] == ZeroPage()
    requires 0 <= vpn < VPNS
    ensures Walk(WithTable(mem, root, v1, t), root, vpn) == Walk(mem, root, vpn)
  {
    var mem1 := WithTable(mem, root, v1, t);
    RootAfterInstall(mem, root, v1, t, vpn / 1024);
    if vpn / 1024 == v1 {
      ZeroWord(vpn % 1024);
    } else if HasTable(mem, root, vpn / 1024) {
      assert TableOf(mem, root, vpn / 1024) != root;
    }
  }

  // ---- a second-level entry ----

  function WithLeaf(mem: Memory, root: int, vpn: int, w: Word): Memory
    requires 0 <= vpn < VPNS
  {
    Store(mem, TableOf(mem, root, vpn / 1024), vpn % 1024, w)
  }

  lemma LeafTables(mem: Memory, root: int, own: set<int>, vpn: int, w: Word)
    requires Tables(mem, root, own) && 0 <= vpn < VPNS && HasTable(mem, root, vpn / 1024)
    ensures Tables(WithLeaf(mem, root, vpn, w), root, own)
    ensures forall p :: IsTablePage(WithLeaf(mem, root, vpn, w), root, p) <==> IsTablePage(mem, root, p)
  {
    var mem1 := WithLeaf(mem, root, vpn, w);
    assert mem1[root] == mem[root];
    assert forall v :: 0 <= v < WORDS_PER_PAGE ==> Load(mem1, root, v) == Load(mem, root, v);
    forall p ensures IsTablePage(mem1, root, p) <==> IsTablePage(mem, root, p) {
      if v :| 0 <= v < WORDS_PER_PAGE && HasTable(mem, root, v) && TableOf(mem, root, v) == p {
        assert HasTable(mem1, root, v) && TableOf(mem1, root, v) == p;
      }
      if v :| 0 <= v < WORDS_PER_PAGE && HasTable(mem1, root, v) && TableOf(mem1, root, v) == p {
        assert HasTable(mem, root, v) && TableOf(mem, root, v) == p;
      }
    }
  }

  /** Writing one second-level entry changes the translation of exactly one virtual page. */
  lemma LeafWalk(mem: Memory, root: int, own: set<int>, vpn: int, w: Word, x: int)
    requires Tables(mem, root, own) && 0 <= vpn < VPNS && HasTable(mem, root, vpn / 1024)
    requires 0 <= x < VPNS
    ensures Walk(WithLeaf(mem, root, vpn, w), root, x) == if x == vpn then DecodePte(w) else Walk(mem, root, x)
  {
    var t := TableOf(mem, root, vpn / 1024);
    assert t in own && t != root;
    if HasTable(mem, root, x / 1024) {
      LoadAfterStore(mem, t, vpn % 1024, w, TableOf(mem, root, x / 1024), x % 1024);
      SplitVpn(x, vpn);
      TablesDistinct(mem, root, own, x / 1024, vpn / 1024);
    }
  }

  lemma TablesDistinct(mem: Memory, root: int, own: set<int>, u: int, v: int)
    requires Tables(mem, root, own) && 0 <= u < WORDS_PER_PAGE && 0 <= v < WORDS_PER_PAGE
    requires HasTable(mem, root, u) && HasTable(mem, root, v)
    ensures TableOf(mem, root, u) == TableOf(mem, root, v) <==> u == v
  {
  }

  lemma SplitVpn(x: int, y: int)
    ensures x == y <==> x / 1024 == y / 1024 && x % 1024 == y % 1024
  {
  }
}
