/** `fs_init` after `fs_flush` recovers the files. */
module TarRoundTrip {
  import opened Machine
  import opened TarFormat

  lemma {:induction false} CStringStops(s: seq<Byte>, n: nat)
    requires n < |s| && s[n] == 0 && forall i :: 0 <= i < n ==> s[i] != 0
    ensures CString(s) == s[..n]
    decreases n
  {
    if n > 0 {
      CStringStops(s[1..], n - 1);
      assert s[..n] == [s[0]] + s[1..][..n - 1];
    }
  }

  lemma SizeFits(size: nat)
    requires size <= DATA_SIZE
    ensures size < Pow8(12)
  {
    assert Pow8(4) == 4096;
    assert Pow8(12) >= Pow8(8) >= Pow8(4) by {
      assert Pow8(8) == 8 * (8 * (8 * (8 * Pow8(4))));
      assert Pow8(12) == 8 * (8 * (8 * (8 * Pow8(8))));
    }
  }

  /** The fields that `fs_init` reads back from a header. */
  lemma HeaderReads(name: seq<Byte>, size: nat)
    requires 1 <= |name| < NAME_SIZE && (forall i :: 0 <= i < |name| ==> name[i] != 0) && size <= DATA_SIZE
    ensures Header(name, size)[0] != 0
    ensures CString(Header(name, size)[0..NAME_SIZE]) == name
    ensures CString(Header(name, size)[257..263]) == USTAR
    ensures OctValue(Header(name, size)[124..136], 0, 0) == size
  {
    var h := Header(name, size);
    CStringStops(h[0..NAME_SIZE], |name|);
    assert h[0..NAME_SIZE][..|name|] == name;
    CStringStops(h[257..263], 5);
    assert h[257..263][..5] == USTAR;
    assert h[124..136] == Octal(size, 12);
    SizeFits(size);
    OctalRoundTrip(size, 12);
  }

  /** The file as it comes back: the bytes past its size are zero. */
  function Restored(f: File): File
    requires Storable(f)
  {
    File(true, f.name, f.data[..f.size] + Zeros(DATA_SIZE - f.size), f.size)
  }

  ghost predicate AllStorable(files: seq<File>) {
    forall i :: 0 <= i < |files| ==> files[i].inUse && Storable(files[i])
  }

  ghost function RestoredAll(files: seq<File>): seq<File>
    requires AllStorable(files)
  {
    seq(|files|, i requires 0 <= i < |files| => Restored(files[i]))
  }

  lemma EntriesLast(files: seq<File>)
    requires AllStorable(files) && files != []
    ensures AllStorable(files[..|files| - 1])
    ensures Entries(files) == Entries(files[..|files| - 1]) + Entry(files[|files| - 1])
  {
    hide Entry, Storable;
  }

  lemma Inner(files: seq<File>, n: int)
    requires n == |files| - 1 && 0 < n
    ensures files[..n][1..] == files[1..n] && files[..n][0] == files[0]
    ensures files[1..][..n - 1] == files[1..n] && files[1..][n - 1] == files[n]
  {
  }

  lemma RestStorable(files: seq<File>)
    requires AllStorable(files) && files != []
    ensures AllStorable(files[1..]) && AllStorable(files[..|files| - 1]) && Storable(files[0])
  {
  }

  lemma Associate(a: seq<Byte>, m: seq<Byte>, z: seq<Byte>)
    ensures (a + m) + z == a + (m + z)
  {
  }

  lemma {:induction false} EntriesFront(files: seq<File>)
    requires AllStorable(files) && files != []
    ensures AllStorable(files[1..]) && Storable(files[0])
    ensures Entries(files) == Entry(files[0]) + Entries(files[1..])
    decreases |files|
  {
    hide Entry, Storable;
    var n := |files| - 1;
    if n == 0 {
      assert files[..0] == [] && files[1..] == [];
    } else {
      hide Entries, AllStorable;
      var rest := files[1..];
      Inner(files, n);
      EntriesLast(files);
      EntriesFront(files[..n]);
      RestStorable(files);
      EntriesLast(rest);
      Associate(Entry(files[0]), Entries(files[1..n]), Entry(files[n]));
    }
  }

  /** An entry at `off` is read back as the file it was printed from. */
  lemma EntryReads(disk: seq<Byte>, off: nat, f: File)
    requires f.inUse && Storable(f) && off + EntrySize(f) <= |disk|
    requires disk[off..off + EntrySize(f)] == Entry(f)
    ensures disk[off] != 0 && CString(disk[off + 257..off + 263]) == USTAR
    ensures |CString(disk[off..off + NAME_SIZE])| < NAME_SIZE
    ensures OctValue(disk[off + 124..off + 136], 0, 0) == f.size
    ensures Loaded(disk, off, f.size) == Restored(f)
  {
    hide Header, OctValue, CString;
    HeaderReads(f.name, f.size);
    var e := disk[off..off + EntrySize(f)];
    var h := Header(f.name, f.size);
    assert e[..HEADER_SIZE] == h;
    assert disk[off..off + HEADER_SIZE] == h;
    assert disk[off] == h[0];
    SubSlice(disk, off, h, 0, NAME_SIZE);
    SubSlice(disk, off, h, 257, 263);
    SubSlice(disk, off, h, 124, 136);
    SubSlice(disk, off, e, HEADER_SIZE, HEADER_SIZE + f.size);
    assert e[HEADER_SIZE..HEADER_SIZE + f.size] == f.data[..f.size];
  }

  lemma SubSlice(disk: seq<Byte>, off: nat, h: seq<Byte>, i: nat, j: nat)
    requires i <= j <= |h| && off + |h| <= |disk| && disk[off..off + |h|] == h
    ensures disk[off + i..off + j] == h[i..j]
  {
    forall k | 0 <= k < |h| ensures disk[off + k] == h[k] {
      assert disk[off..off + |h|][k] == disk[off + k];
    }
  }

  lemma ParseStep(disk: seq<Byte>, off: nat, f: File, count: nat, rest: seq<File>)
    requires f.inUse && Storable(f) && off + EntrySize(f) <= |disk| && 0 < count
    requires disk[off..off + EntrySize(f)] == Entry(f)
    requires Parse(disk, off + EntrySize(f), count - 1) == Parsed(rest)
    ensures Parse(disk, off, count) == Parsed([Restored(f)] + rest)
  {
    hide Entry, OctValue, CString, Loaded, Restored;
    EntryReads(disk, off, f);
  }

  lemma SplitDisk(disk: seq<Byte>, off: nat, e: seq<Byte>, r: seq<Byte>)
    requires off + |e + r| <= |disk| && disk[off..off + |e + r|] == e + r
    ensures disk[off..off + |e|] == e && disk[off + |e|..off + |e| + |r|] == r
  {
    SubSlice(disk, off, e + r, 0, |e|);
    SubSlice(disk, off, e + r, |e|, |e + r|);
  }

  lemma RestoredFront(files: seq<File>)
    requires AllStorable(files) && files != []
    ensures RestoredAll(files) == [Restored(files[0])] + RestoredAll(files[1..])
  {
    hide Restored, Storable;
  }

  lemma ParseEnd(disk: seq<Byte>, off: nat, count: nat)
    requires 0 < count ==> off + HEADER_SIZE <= |disk| && disk[off] == 0
    ensures Parse(disk, off, count) == Parsed(RestoredAll([]))
  {
  }

  /** From `off` on the disk holds the entries of `files`, and after them the scan ends. */
  ghost predicate Holds(disk: seq<Byte>, off: nat, files: seq<File>, count: nat)
    requires AllStorable(files)
  {
    var n := |Entries(files)|;
    && |files| <= count && off + n <= |disk| && disk[off..off + n] == Entries(files)
    && (|files| < count ==> off + n + HEADER_SIZE <= |disk| && disk[off + n] == 0)
  }

  lemma HoldsRest(disk: seq<Byte>, off: nat, files: seq<File>, count: nat)
    requires AllStorable(files) && files != [] && Holds(disk, off, files, count)
    ensures off + EntrySize(files[0]) <= |disk| && disk[off..off + EntrySize(files[0])] == Entry(files[0])
    ensures 0 < count && Holds(disk, off + EntrySize(files[0]), files[1..], count - 1)
  {
    hide Entry, Entries, EntrySize, Storable;
    EntriesFront(files);
    SplitDisk(disk, off, Entry(files[0]), Entries(files[1..]));
  }

  lemma {:induction false} ParseEntries(disk: seq<Byte>, off: nat, files: seq<File>, count: nat)
    requires AllStorable(files) && Holds(disk, off, files, count)
    ensures Parse(disk, off, count) == Parsed(RestoredAll(files))
    decreases |files|
  {
    hide *;
    if files == [] {
      ParseNone(disk, off, files, count);
    } else {
      var f, rest := files[0], files[1..];
      Parts(files);
      HoldsRest(disk, off, files, count);
      ParseEntries(disk, off + EntrySize(f), rest, count - 1);
      ParseStep(disk, off, f, count, RestoredAll(rest));
      RestoredFront(files);
    }
  }

  lemma ParseNone(disk: seq<Byte>, off: nat, files: seq<File>, count: nat)
    requires AllStorable(files) && files == [] && Holds(disk, off, files, count)
    ensures Parse(disk, off, count) == Parsed(RestoredAll(files))
  {
    assert Entries(files) == [];
    ParseEnd(disk, off, count);
  }

  lemma Parts(files: seq<File>)
    requires AllStorable(files) && files != []
    ensures files[0].inUse && Storable(files[0]) && AllStorable(files[1..])
  {
  }

  /** The files in use, in slot order. */
  function Used(files: seq<File>): (used: seq<File>)
    ensures |used| <= |files|
  {
    if files == [] then []
    else
      var n := |files| - 1;
      Used(files[..n]) + if files[n].inUse then [files[n]] else []
  }

  ghost predicate UsedStorable(files: seq<File>) {
    forall i :: 0 <= i < |files| && files[i].inUse ==> Storable(files[i])
  }

  lemma {:induction false} EntriesOfUsed(files: seq<File>)
    requires UsedStorable(files)
    ensures AllStorable(Used(files)) && Entries(files) == Entries(Used(files))
    decreases |files|
  {
    hide Entry, EntrySize, Storable;
    if files != [] {
      var n := |files| - 1;
      EntriesOfUsed(files[..n]);
      if files[n].inUse {
        assert Used(files)[..|Used(files)| - 1] == Used(files[..n]);
      } else {
        assert Used(files) == Used(files[..n]);
      }
    }
  }

  lemma {:induction false} EntriesSize(files: seq<File>)
    requires AllStorable(files)
    ensures |Entries(files)| <= 1536 * |files|
    decreases |files|
  {
    if files != [] {
      var n := |files| - 1;
      EntriesSize(files[..n]);
      assert EntrySize(files[n]) <= 1536;
    }
  }

  /** Whatever the files, if they fit the buffer, reading the archive back gives every name, size and
      contents of the files in use, in order. */
  lemma TarRestores(files: seq<File>)
    requires |files| == FILES_MAX && FlushOk(files)
    ensures AllStorable(Used(files))
    ensures Parse(Archive(files), 0, FILES_MAX) == Parsed(RestoredAll(Used(files)))
  {
    hide Entries, Parse, Restored, Used;
    EntriesOfUsed(files);
    EntriesSize(Used(files));
    var disk := Archive(files);
    assert disk[0..|Entries(files)|] == Entries(files);
    ParseEntries(disk, 0, Used(files), FILES_MAX);
  }

  // ---- which files fit ----

  lemma {:induction false} SizeIsSum(files: seq<File>)
    requires AllStorable(files)
    ensures |Entries(files)| == TotalEntries(files)
    decreases |files|
  {
    if files != [] {
      SizeIsSum(files[..|files| - 1]);
    }
  }

  ghost function TotalEntries(files: seq<File>): nat
    requires AllStorable(files)
  {
    if files == [] then 0 else TotalEntries(files[..|files| - 1]) + EntrySize(files[|files| - 1])
  }

  /** The disk buffer is too small for two full files: "fits" is a real condition. */
  lemma TwoFullFilesDoNotFit(f: File, g: File)
    requires f.inUse && g.inUse && Storable(f) && Storable(g)
    ensures FlushOk([f, g]) <==> (f.size + 511) / 512 + (g.size + 511) / 512 <= 3
    ensures f.size == 1024 && g.size == 1024 ==> !FlushOk([f, g])
  {
    hide AlignUp, Entries, TotalEntries;
    var files := [f, g];
    SizeIsSum(files);
    TotalOfTwo(f, g);
    Sectors(f.size);
    Sectors(g.size);
  }

  lemma TotalOfTwo(f: File, g: File)
    requires Storable(f) && Storable(g)
    ensures AllStorable([f, g]) ==> TotalEntries([f, g]) == EntrySize(f) + EntrySize(g)
  {
    hide EntrySize;
    assert [f, g][..1] == [f] && [f][..0] == [];
    assert AllStorable([f, g]) ==> TotalEntries([f]) == EntrySize(f);
  }

  /** A header and `n` bytes take one sector and those of the contents. */
  lemma Sectors(n: nat)
    ensures AlignUp(HEADER_SIZE + n) == 512 * (1 + (n + 511) / 512)
  {
    assert (512 + n + 511) / 512 == 1 + (n + 511) / 512;
  }
}
