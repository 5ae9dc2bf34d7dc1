/** The tar archive on the disk (kernel/filesystem.c): the ustar Interchange Format of POSIX.1 pax as
    `fs_flush` prints it and `fs_init` reads it. */
module TarFormat {
  import opened Machine

  const FILES_MAX := 2
  const SECTOR_SIZE := 512
  const NAME_SIZE := 100
  const DATA_SIZE := 1024
  const HEADER_SIZE := 512

  /** `align_up(sizeof(struct file) * FILES_MAX, SECTOR_SIZE)` with a 1132-byte `struct file`. */
  const DISK_SIZE := 2560

  const USTAR: seq<Byte> := [117, 115, 116, 97, 114]
  const MODE: seq<Byte> := [48, 48, 48, 54, 52, 52]

  /** `struct file`; `name` is the C string without its terminator. */
  datatype File = File(inUse: bool, name: seq<Byte>, data: seq<Byte>, size: int)

  /** A file that can be stored: a name of 1 to 99 bytes without NUL, and at most 1024 bytes. */
  predicate Storable(f: File) {
    && 1 <= |f.name| < NAME_SIZE && (forall i :: 0 <= i < |f.name| ==> f.name[i] != 0)
    && |f.data| == DATA_SIZE && 0 <= f.size <= DATA_SIZE
  }

  // ---- octal numbers ----

  function Pow8(n: nat): (p: nat)
    ensures p > 0
  {
    if n == 0 then 1 else 8 * Pow8(n - 1)
  }

  /** The last `width` octal digits of `n`. */
  function Octal(n: nat, width: nat): (s: seq<Byte>)
    ensures |s| == width
    ensures forall i :: 0 <= i < width ==> 48 <= s[i] <= 55
  {
    if width == 0 then [] else Octal(n / 8, width - 1) + [n % 8 + 48]
  }

  predicate IsOctal(b: Byte) {
    48 <= b <= 55
  }

  /** `oct2int` from position `i` on. */
  function OctValue(s: seq<Byte>, i: nat, acc: int): int
    requires i <= |s|
    decreases |s| - i
  {
    if i == |s| || !IsOctal(s[i]) then acc else OctValue(s, i + 1, acc * 8 + (s[i] - 48))
  }

  const INT_LIMIT := 0x8000_0000

  /** Reading more digits never makes the number smaller. */
  lemma {:induction false} OctGrows(s: seq<Byte>, i: nat, acc: int)
    requires i <= |s| && 0 <= acc
    ensures acc <= OctValue(s, i, acc)
    decreases |s| - i
  {
    if i < |s| && IsOctal(s[i]) {
      OctGrows(s, i + 1, acc * 8 + (s[i] - 48));
    }
  }

  lemma {:induction false} OctValueAppend(s: seq<Byte>, b: Byte, i: nat, acc: int)
    requires i <= |s| && IsOctal(b) && forall j :: 0 <= j < |s| ==> IsOctal(s[j])
    ensures OctValue(s + [b], i, acc) == OctValue(s, i, acc) * 8 + (b - 48)
    decreases |s| - i
  {
    var t := s + [b];
    if i == |s| {
      assert OctValue(t, i, acc) == OctValue(t, i + 1, acc * 8 + (b - 48));
    } else {
      assert t[i] == s[i];
      OctValueAppend(s, b, i + 1, acc * 8 + (s[i] - 48));
    }
  }

  /** Reading back printed octal digits gives the number, as long as it fits the width. */
  lemma {:induction false} OctalRoundTrip(n: nat, width: nat)
    requires n < Pow8(width)
    ensures OctValue(Octal(n, width), 0, 0) == n
    decreases width
  {
    if width > 0 {
      OctalRoundTrip(n / 8, width - 1);
      OctValueAppend(Octal(n / 8, width - 1), n % 8 + 48, 0, 0);
    }
  }

  // ---- headers ----

  /** Byte `i` of the header of a file, with `sum` in the checksum field. */
  function HeaderByte(name: seq<Byte>, size: nat, sum: seq<Byte>, i: nat): Byte
    requires |name| < NAME_SIZE && |sum| == 8
  {
    if i < |name| then name[i]
    else if 100 <= i < 106 then MODE[i - 100]
    else if 124 <= i < 136 then Octal(size, 12)[i - 124]
    else if 148 <= i < 156 then sum[i - 148]
    else if i == 156 then 48
    else if 257 <= i < 262 then USTAR[i - 257]
    else if 263 <= i < 265 then 48
    else 0
  }

  function HeaderWith(name: seq<Byte>, size: nat, sum: seq<Byte>): (h: seq<Byte>)
    requires |name| < NAME_SIZE && |sum| == 8
    ensures |h| == HEADER_SIZE
  {
    seq(HEADER_SIZE, i requires 0 <= i => HeaderByte(name, size, sum, i))
  }

  const BLANKS: seq<Byte> := [0, 0, 0, 0, 0, 0, 0, 0]
  const SPACES: seq<Byte> := [32, 32, 32, 32, 32, 32, 32, 32]

  function ByteSum(s: seq<Byte>): (n: nat)
    ensures n <= 255 * |s|
  {
    if s == [] then 0
    else
      var last: int := s[|s| - 1];
      ByteSum(s[..|s| - 1]) + last
  }

  /** The checksum `fs_flush` computes: eight spaces plus the header with an empty field. */
  function ChecksumOf(name: seq<Byte>, size: nat): (n: nat)
    requires |name| < NAME_SIZE
    ensures n <= 8 * 32 + 255 * HEADER_SIZE
  {
    8 * 32 + ByteSum(HeaderWith(name, size, BLANKS))
  }

  function ChecksumField(name: seq<Byte>, size: nat): (s: seq<Byte>)
    requires |name| < NAME_SIZE
    ensures |s| == 8
  {
    Octal(ChecksumOf(name, size), 6) + [0, 0]
  }

  function Header(name: seq<Byte>, size: nat): (h: seq<Byte>)
    requires |name| < NAME_SIZE
    ensures |h| == HEADER_SIZE
  {
    HeaderWith(name, size, ChecksumField(name, size))
  }

  lemma {:induction false} SumSplit(s: seq<Byte>, t: seq<Byte>)
    ensures ByteSum(s + t) == ByteSum(s) + ByteSum(t)
    decreases |t|
  {
    if t == [] {
      assert s + t == s;
    } else {
      var n := |t| - 1;
      assert (s + t)[..|s + t| - 1] == s + t[..n];
      SumSplit(s, t[..n]);
    }
  }

  lemma SumSpaces()
    ensures ByteSum(SPACES) == 8 * 32 && ByteSum(BLANKS) == 0
  {
    SumTwo(SPACES[..4], SPACES[4..]);
    assert SPACES[..4] == SPACES[4..] == [32, 32, 32, 32];
    assert ByteSum([32, 32, 32, 32]) == 128 by {
      SumTwo([32, 32], [32, 32]);
      assert [32, 32] + [32, 32] == [32, 32, 32, 32];
      SumTwo([32], [32]);
      assert [32] + [32] == [32, 32];
      assert ByteSum([32]) == 32;
    }
    assert SPACES[..4] + SPACES[4..] == SPACES;
    assert BLANKS == [0, 0, 0, 0] + [0, 0, 0, 0] && [0, 0, 0, 0] == [0, 0] + [0, 0] && [0, 0] == [0] + [0];
    SumTwo([0], [0]);
    SumTwo([0, 0], [0, 0]);
    SumTwo([0, 0, 0, 0], [0, 0, 0, 0]);
  }

  lemma SumTwo(s: seq<Byte>, t: seq<Byte>)
    ensures ByteSum(s + t) == ByteSum(s) + ByteSum(t)
  {
    SumSplit(s, t);
  }

  /** The bytes before and after the checksum field do not depend on it. */
  lemma FieldSum(name: seq<Byte>, size: nat, sum: seq<Byte>)
    requires |name| < NAME_SIZE && |sum| == 8
    ensures ByteSum(HeaderWith(name, size, sum)) == ByteSum(HeaderWith(name, size, BLANKS)) + ByteSum(sum)
  {
    var h, b := HeaderWith(name, size, sum), HeaderWith(name, size, BLANKS);
    assert h[..148] == b[..148] && h[156..] == b[156..] && h[148..156] == sum && b[148..156] == BLANKS;
    assert h == (h[..148] + h[148..156]) + h[156..] && b == (b[..148] + b[148..156]) + b[156..];
    SumSplit(h[..148] + h[148..156], h[156..]);
    SumSplit(h[..148], h[148..156]);
    SumSplit(b[..148] + b[148..156], b[156..]);
    SumSplit(b[..148], b[148..156]);
    SumSpaces();
  }

  /** The stored checksum is the byte sum of the header with its checksum field read as spaces. */
  lemma ChecksumIsUstar(name: seq<Byte>, size: nat)
    requires |name| < NAME_SIZE
    ensures OctValue(Header(name, size)[148..156], 0, 0) == ByteSum(HeaderWith(name, size, SPACES))
  {
    hide HeaderWith, ByteSum;
    var n := ChecksumOf(name, size);
    FieldSum(name, size, SPACES);
    SumSpaces();
    HeaderField(name, size, ChecksumField(name, size));
    assert Pow8(6) == 262144 by {
      assert Pow8(3) == 512;
      assert Pow8(6) == 8 * (8 * (8 * Pow8(3)));
    }
    OctalRoundTrip(n, 6);
    OctStops(Octal(n, 6), [0, 0], 0, 0);
  }

  lemma HeaderField(name: seq<Byte>, size: nat, sum: seq<Byte>)
    requires |name| < NAME_SIZE && |sum| == 8
    ensures HeaderWith(name, size, sum)[148..156] == sum
  {
  }

  lemma {:induction false} OctStops(s: seq<Byte>, t: seq<Byte>, i: nat, acc: int)
    requires i <= |s| && |t| > 0 && t[0] == 0 && forall j :: 0 <= j < |s| ==> IsOctal(s[j])
    ensures OctValue(s + t, i, acc) == OctValue(s, i, acc)
    decreases |s| - i
  {
    if i < |s| {
      assert (s + t)[i] == s[i];
      OctStops(s, t, i + 1, acc * 8 + (s[i] - 48));
    } else {
      assert (s + t)[i] == t[0];
    }
  }

  // ---- the archive ----

  function AlignUp(n: nat): (m: nat)
    ensures n <= m < n + SECTOR_SIZE && m % SECTOR_SIZE == 0
  {
    (n + SECTOR_SIZE - 1) / SECTOR_SIZE * SECTOR_SIZE
  }

  function Zeros(n: nat): (s: seq<Byte>)
    ensures |s| == n && forall i :: 0 <= i < n ==> s[i] == 0
  {
    seq(n, _ => 0)
  }

  function EntrySize(f: File): nat
    requires Storable(f)
  {
    AlignUp(HEADER_SIZE + f.size)
  }

  /** Header, contents and padding of one file. */
  function Entry(f: File): (s: seq<Byte>)
    requires Storable(f)
    ensures |s| == EntrySize(f)
  {
    Header(f.name, f.size) + f.data[..f.size] + Zeros(EntrySize(f) - HEADER_SIZE - f.size)
  }

  /** The entries of the files in use, in order. */
  function Entries(files: seq<File>): (s: seq<Byte>)
    requires forall i :: 0 <= i < |files| && files[i].inUse ==> Storable(files[i])
  {
    if files == [] then []
    else
      var n := |files| - 1;
      Entries(files[..n]) + if files[n].inUse then Entry(files[n]) else []
  }

  predicate FlushOk(files: seq<File>) {
    && (forall i :: 0 <= i < |files| && files[i].inUse ==> Storable(files[i]))
    && |Entries(files)| <= DISK_SIZE
  }

  /** The disk after `fs_flush`. */
  function Archive(files: seq<File>): (s: seq<Byte>)
    requires FlushOk(files)
    ensures |s| == DISK_SIZE
  {
    Entries(files) + Zeros(DISK_SIZE - |Entries(files)|)
  }

  // ---- fs_init ----

  datatype ParseResult = Parsed(files: seq<File>) | BadMagic | OutOfBounds

  /** The C string at the start of `s`: up to the first NUL. */
  function CString(s: seq<Byte>): (t: seq<Byte>)
    ensures |t| <= |s|
  {
    if s == [] || s[0] == 0 then [] else [s[0]] + CString(s[1..])
  }

  function Loaded(disk: seq<Byte>, off: nat, size: nat): File
    requires off + HEADER_SIZE + size <= |disk| && size <= DATA_SIZE
  {
    File(true, CString(disk[off..off + NAME_SIZE]),
         disk[off + HEADER_SIZE..off + HEADER_SIZE + size] + Zeros(DATA_SIZE - size), size)
  }

  /** What the header at `off` says: no more files, a file of some size, or an error. Out of bounds are
      a header or contents outside the buffer, a name without terminator, a size that a file cannot
      hold or that overflows an `int`: the C program has no defined behaviour there. */
  datatype Head = EndOfArchive | Found(size: nat) | Bad(why: ParseResult)

  function ReadHead(disk: seq<Byte>, off: nat): (h: Head)
    ensures h.Found? ==> h.size <= DATA_SIZE && off + HEADER_SIZE + h.size <= |disk|
    ensures h.Bad? ==> !h.why.Parsed?
  {
    if off + HEADER_SIZE > |disk| then Bad(OutOfBounds)
    else if disk[off] == 0 then EndOfArchive
    else if CString(disk[off + 257..off + 263]) != USTAR then Bad(BadMagic)
    else
      var size := OctValue(disk[off + 124..off + 136], 0, 0);
      if size < 0 || size > DATA_SIZE || off + HEADER_SIZE + size > |disk| then Bad(OutOfBounds)
      else if |CString(disk[off..off + NAME_SIZE])| == NAME_SIZE then Bad(OutOfBounds)
      else Found(size)
  }

  /** The parse result with the files already loaded put in front. */
  function After(done: seq<File>, r: ParseResult): ParseResult {
    match r
    case Parsed(rest) => Parsed(done + rest)
    case other => other
  }

  /** The loop of `fs_init` with `count` slots left, from offset `off`, into slots that were empty. */
  function Parse(disk: seq<Byte>, off: nat, count: nat): ParseResult
    decreases count
  {
    if count == 0 then Parsed([])
    else
      match ReadHead(disk, off)
      case EndOfArchive => Parsed([])
      case Bad(why) => why
      case Found(size) =>
        After([Loaded(disk, off, size)], Parse(disk, off + AlignUp(HEADER_SIZE + size), count - 1))
  }

  // ---- the header as other readers of tar see it ----

  /** The fields of a header that `fs_flush` prints: name, mode 000644, size in twelve octal digits, type 0,
      magic ustar and version 00; every other byte but the checksum is zero. */
  lemma HeaderFields(name: seq<Byte>, size: nat)
    requires |name| < 100
    ensures var h := Header(name, size);
            && |h| == 512 && h[..|name|] == name && (forall i :: |name| <= i < 100 ==> h[i] == 0)
            && h[100..108] == [48, 48, 48, 54, 52, 52, 0, 0]
            && h[124..136] == Octal(size, 12)
            && h[156] == 48
            && h[257..265] == [117, 115, 116, 97, 114, 0, 48, 48]
            && (forall i :: 108 <= i < 124 || 136 <= i < 148 || 157 <= i < 257 || 265 <= i < 512 ==> h[i] == 0)
  {
    hide Octal, ChecksumField;
  }

  /** What `fs_init` makes of the header at `off`, exactly. An empty name ends the archive; six magic bytes that
      are not the letters ustar and a NUL are an error; a file is read if its name ends within its 100 bytes
      and its size, at most 1024, lies in the buffer; anything else leads out of bounds. */
  lemma HeadExactly(disk: seq<Byte>, off: nat)
    ensures ReadHead(disk, off) ==
            if off + 512 > |disk| then Bad(OutOfBounds)
            else if disk[off] == 0 then EndOfArchive
            else if disk[off + 257..off + 263] != [117, 115, 116, 97, 114, 0] then Bad(BadMagic)
            else
              var size := OctValue(disk[off + 124..off + 136], 0, 0);
              if && 0 <= size <= 1024 && off + 512 + size <= |disk|
                 && (exists i :: off <= i < off + 100 && disk[i] == 0)
              then Found(size) else Bad(OutOfBounds)
  {
    hide OctValue, CString;
    if off + 512 <= |disk| {
      MagicIs(disk[off + 257..off + 263]);
      var name := disk[off..off + 100];
      CStringFull(name);
      assert forall i :: 0 <= i < 100 ==> name[i] == disk[off + i];
      assert (exists i :: off <= i < off + 100 && disk[i] == 0) <==> (exists i :: 0 <= i < 100 && name[i] == 0) by {
        if i :| off <= i < off + 100 && disk[i] == 0 {
          assert name[i - off] == 0;
        }
      }
    }
  }

  lemma {:induction false} CStringFull(s: seq<Byte>)
    ensures |CString(s)| == |s| <==> forall i :: 0 <= i < |s| ==> s[i] != 0
  {
    if s != [] && s[0] != 0 {
      CStringFull(s[1..]);
      assert forall i :: 1 <= i < |s| ==> s[i] == s[1..][i - 1];
    }
  }

  lemma MagicIs(m: seq<Byte>)
    requires |m| == 6
    ensures CString(m) == USTAR <==> m == [117, 115, 116, 97, 114, 0]
  {
    var m1, m2, m3, m4, m5 := m[1..], m[2..], m[3..], m[4..], m[5..];
    assert m1[1..] == m2 && m2[1..] == m3 && m3[1..] == m4 && m4[1..] == m5 && m5[1..] == [];
    assert m5 == [m[5]];
    CStringHead(m);
    CStringHead(m1);
    CStringHead(m2);
    CStringHead(m3);
    CStringHead(m4);
    CStringHead(m5);
    if CString(m) == USTAR {
      assert CString(m1) == USTAR[1..] && USTAR[1..] == [115, 116, 97, 114];
      assert CString(m2) == [116, 97, 114] && CString(m3) == [97, 114] && CString(m4) == [114] && CString(m5) == [];
    }
  }

  lemma CStringHead(s: seq<Byte>)
    requires s != []
    ensures s[0] == 0 ==> CString(s) == []
    ensures s[0] != 0 ==> |CString(s)| > 0 && CString(s)[0] == s[0] && CString(s)[1..] == CString(s[1..])
  {
  }
}
