/** Physical memory as pages of bytes, little-endian words inside a page, and the Sv32
    page-table entry format (section 4.3 of the RISC-V Privileged Architecture, version 20211203). */
module Machine {

  const PAGE_SIZE := 4096
  const WORDS_PER_PAGE := 1024
  const TWO_32 := 0x1_0000_0000

  type Byte = b: int | 0 <= b < 256
  type Word = w: int | 0 <= w < 0x1_0000_0000

  type Page = p: seq<Byte> | |p| == 4096 witness seq(4096, _ => 0)

  /** Physical page number to contents; only pages of the free RAM range are present. */
  type Memory = map<int, Page>

  datatype Option<+T> = None | Some(value: T)

  function ZeroPage(): (p: Page) {
    seq(PAGE_SIZE, _ => 0)
  }

  // ---- words in a page ----

  function ByteOf(w: Word, k: int): (b: Byte)
    requires 0 <= k < 4
  {
    if k == 0 then w % 256
    else if k == 1 then w / 256 % 256
    else if k == 2 then w / 65536 % 256
    else w / 16777216
  }

  function WordAt(p: Page, i: int): (w: Word)
    requires 0 <= i < WORDS_PER_PAGE
  {
    var b0: int, b1: int, b2: int, b3: int := p[4 * i], p[4 * i + 1], p[4 * i + 2], p[4 * i + 3];
    b0 + 256 * b1 + 65536 * b2 + 16777216 * b3
  }

  function SetWord(p: Page, i: int, w: Word): (q: Page)
    requires 0 <= i < WORDS_PER_PAGE
  {
    p[4 * i := ByteOf(w, 0)][4 * i + 1 := ByteOf(w, 1)][4 * i + 2 := ByteOf(w, 2)][4 * i + 3 := ByteOf(w, 3)]
  }

  lemma BytesOfWord(w: Word)
    ensures w % 256 + 256 * (w / 256 % 256) + 65536 * (w / 65536 % 256) + 16777216 * (w / 16777216) == w
  {
    assert w / 65536 == w / 256 / 256;
    assert w / 16777216 == w / 65536 / 256;
  }

  /** A word store is read back, and no other word of the page changes. */
  lemma WordAfterSet(p: Page, i: int, w: Word, j: int)
    requires 0 <= i < WORDS_PER_PAGE
    requires 0 <= j < WORDS_PER_PAGE
    ensures WordAt(SetWord(p, i, w), j) == if i == j then w else WordAt(p, j)
  {
    if i == j {
      BytesOfWord(w);
    }
  }

  lemma ZeroWord(i: int)
    requires 0 <= i < WORDS_PER_PAGE
    ensures WordAt(ZeroPage(), i) == 0
  {
  }

  // ---- page-table entries ----

  /** The R, W, X and U bits of a page-table entry. */
  datatype Perm = Perm(r: bool, w: bool, x: bool, u: bool)

  datatype Leaf = Leaf(ppn: int, perm: Perm)

  function Bit(b: bool, weight: int): int {
    if b then weight else 0
  }

  function PermBits(f: Perm): (bits: int)
    ensures 0 <= bits <= 30 && bits % 2 == 0
  {
    Bit(f.r, 2) + Bit(f.w, 4) + Bit(f.x, 8) + Bit(f.u, 16)
  }

  /** `((paddr / PAGE_SIZE) << 10) | flags | PAGE_V` in 32 bits; the three fields do not overlap. */
  function EncodePte(ppn: int, f: Perm): (w: Word) {
    (ppn * 1024 + PermBits(f) + 1) % TWO_32
  }

  predicate PteValid(w: Word) {
    w % 2 == 1
  }

  function PtePpn(w: Word): (ppn: int)
    ensures 0 <= ppn < 0x40_0000
  {
    w / 1024
  }

  function PtePerm(w: Word): Perm {
    Perm(w / 2 % 2 == 1, w / 4 % 2 == 1, w / 8 % 2 == 1, w / 16 % 2 == 1)
  }

  function DecodePte(w: Word): (leaf: Option<Leaf>) {
    if PteValid(w) then Some(Leaf(PtePpn(w), PtePerm(w))) else None
  }

  const NO_PERM := Perm(false, false, false, false)

  // Bits below the page number do not depend on it.

  lemma EvenPlus(m: int, c: int)
    ensures (2 * m + c) % 2 == c % 2
  {
  }

  lemma LowR(m: int, b: int)
    requires 0 <= b < 32
    ensures (4 * m + b) / 2 % 2 == b / 2 % 2
  {
    assert (4 * m + b) / 2 == 2 * m + b / 2;
    EvenPlus(m, b / 2);
  }

  lemma LowW(m: int, b: int)
    requires 0 <= b < 32
    ensures (8 * m + b) / 4 % 2 == b / 4 % 2
  {
    assert (8 * m + b) / 4 == 2 * m + b / 4;
    EvenPlus(m, b / 4);
  }

  lemma LowX(m: int, b: int)
    requires 0 <= b < 32
    ensures (16 * m + b) / 8 % 2 == b / 8 % 2
  {
    assert (16 * m + b) / 8 == 2 * m + b / 8;
    EvenPlus(m, b / 8);
  }

  lemma LowU(m: int, b: int)
    requires 0 <= b < 32
    ensures (32 * m + b) / 16 % 2 == b / 16 % 2
  {
    assert (32 * m + b) / 16 == 2 * m + b / 16;
    EvenPlus(m, b / 16);
  }

  lemma PermOfBits(f: Perm)
    ensures PtePerm(PermBits(f) + 1) == f
  {
  }

  // The product is named so that each field is a linear fact.

  lemma PpnField(w: Word, m: int, b: int)
    requires w == 1024 * m + b && 0 <= m && 0 <= b < 32
    ensures PtePpn(w) == m
  {
  }

  lemma ValidField(w: Word, m: int, b: int)
    requires w == 1024 * m + b && 0 <= b < 32
    ensures PteValid(w) == PteValid(b)
  {
    EvenPlus(512 * m, b);
  }

  lemma PermField(w: Word, m: int, b: int)
    requires w == 1024 * m + b && 0 <= b < 32
    ensures PtePerm(w) == PtePerm(b)
  {
    var m4, m8, m16, m32 := 256 * m, 128 * m, 64 * m, 32 * m;
    LowR(m4, b);
    LowW(m8, b);
    LowX(m16, b);
    LowU(m32, b);
    assert w == 4 * m4 + b && w == 8 * m8 + b && w == 16 * m16 + b && w == 32 * m32 + b;
  }

  lemma PteFields(w: Word, ppn: int, b: int)
    requires w == ppn * 1024 + b && 0 <= ppn && 0 <= b < 32
    ensures PtePpn(w) == ppn && PteValid(w) == PteValid(b) && PtePerm(w) == PtePerm(b)
  {
    hide PtePpn, PteValid, PtePerm;
    PpnField(w, ppn, b);
    ValidField(w, ppn, b);
    PermField(w, ppn, b);
  }

  lemma PteFits(ppn: int, f: Perm)
    requires 0 <= ppn < 0x10_0000
    ensures EncodePte(ppn, f) == ppn * 1024 + (PermBits(f) + 1)
  {
    var b := PermBits(f) + 1;
    assert 0 <= ppn * 1024 + b < TWO_32;
  }

  lemma PteRoundTrip(ppn: int, f: Perm)
    requires 0 <= ppn < 0x10_0000
    ensures DecodePte(EncodePte(ppn, f)) == Some(Leaf(ppn, f))
  {
    PteFits(ppn, f);
    PteFields(EncodePte(ppn, f), ppn, PermBits(f) + 1);
    PermOfBits(f);
  }

  // ---- the formats in bits ----

  /** A stored word lies in memory low byte first. */
  lemma LittleEndian(p: Page, i: int, w: Word)
    requires 0 <= i < WORDS_PER_PAGE
    ensures var q := SetWord(p, i, w);
            && q[4 * i] == w % 256 && q[4 * i + 1] == w / 256 % 256
            && q[4 * i + 2] == w / 65536 % 256 && q[4 * i + 3] == w / 16777216
  {
  }

  /** The bits of an entry: V, R, W, X and U from bit 0 on, nothing in bits 5 to 9, and the frame number
      above them. */
  lemma PteBits(ppn: int, f: Perm)
    requires 0 <= ppn < 0x10_0000
    ensures var w := EncodePte(ppn, f);
            && w % 2 == 1
            && (w / 2 % 2 == 1 <==> f.r) && (w / 4 % 2 == 1 <==> f.w) && (w / 8 % 2 == 1 <==> f.x)
            && (w / 16 % 2 == 1 <==> f.u)
            && w / 32 % 32 == 0 && w / 1024 == ppn
  {
    hide EncodePte;
    var w, b := EncodePte(ppn, f), PermBits(f) + 1;
    PteFits(ppn, f);
    PpnField(w, ppn, b);
    ValidField(w, ppn, b);
    PermField(w, ppn, b);
    PermOfBits(f);
    Gap(ppn, b);
  }

  lemma Gap(m: int, b: int)
    requires 0 <= b < 32
    ensures (m * 1024 + b) / 32 % 32 == 0
  {
    assert (m * 1024 + b) / 32 == m * 32;
  }
}
