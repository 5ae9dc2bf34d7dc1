/** kernel/filesystem.c as it runs: the `disk` buffer printed and parsed in place. The sectors are
    exchanged with the block device as one image. */
module Filesystem {
  import opened Machine
  import opened TarFormat
  import opened TarRoundTrip

  /** `oct2int`; nothing when the `int` overflows, which C leaves undefined. */
  method OctToInt(oct: seq<Byte>) returns (r: Option<int>)
    ensures r == if OctValue(oct, 0, 0) < 0x8000_0000 then Some(OctValue(oct, 0, 0)) else None
  {
    var dec := 0;
    for i := 0 to |oct|
      invariant 0 <= dec < INT_LIMIT && OctValue(oct, i, dec) == OctValue(oct, 0, 0)
    {
      if oct[i] < 48 || oct[i] > 55 {
        break;
      }
      if dec * 8 + (oct[i] - 48) >= INT_LIMIT {
        OctGrows(oct, i + 1, dec * 8 + (oct[i] - 48));
        return None;
      }
      dec := dec * 8 + (oct[i] - 48);
    }
    return Some(dec);
  }

  function Blank(): File {
    File(false, [], Zeros(DATA_SIZE), 0)
  }

  class Fs {
    const files: array<File>
    const disk: array<Byte>

    predicate Valid()
      reads this
    {
      files.Length == FILES_MAX && disk.Length == DISK_SIZE
    }

    constructor ()
      ensures Valid() && fresh(files) && fresh(disk)
      ensures forall i :: 0 <= i < FILES_MAX ==> files[i] == Blank()
    {
      files := new File[FILES_MAX](_ => Blank());
      disk := new Byte[DISK_SIZE](_ => 0);
    }

    /** The buffer differs from `was` only in `[at, at + |s|)`, where it holds `s`. */
    ghost predicate Spliced(was: seq<Byte>, at: nat, s: seq<Byte>)
      reads this, disk
    {
      && |was| == disk.Length && at + |s| <= disk.Length
      && (forall k :: 0 <= k < disk.Length ==> disk[k] == if at <= k < at + |s| then s[k - at] else was[k])
    }

    /** `memcpy` or `strcpy` into the buffer. */
    method PutBytes(at: nat, s: seq<Byte>)
      requires at + |s| <= disk.Length
      modifies disk
      ensures Spliced(old(disk[..]), at, s)
    {
      for i := 0 to |s|
        invariant Spliced(old(disk[..]), at, s[..i])
      {
        disk[at + i] := s[i];
      }
      assert s[..|s|] == s;
    }

    /** The digit loops of `fs_flush`, last digit first. */
    method PutOctal(at: nat, width: nat, n: nat)
      requires at + width <= disk.Length
      modifies disk
      ensures Spliced(old(disk[..]), at, Octal(n, width))
    {
      hide Octal;
      ghost var was, digits := disk[..], Octal(n, width);
      var rest := n;
      var i := width;
      while i > 0
        invariant 0 <= i <= width && Octal(rest, i) == digits[..i]
        invariant forall j :: i <= j < width ==> disk[at + j] == digits[j]
        invariant forall k :: 0 <= k < disk.Length && !(at + i <= k < at + width) ==> disk[k] == was[k]
      {
        OctalLast(rest, i);
        assert digits[..i][i - 1] == digits[i - 1] && digits[..i][..i - 1] == digits[..i - 1];
        disk[at + i - 1] := rest % 8 + 48;
        rest := rest / 8;
        i := i - 1;
      }
      forall k | at <= k < at + width ensures disk[k] == digits[k - at] {
        assert disk[at + (k - at)] == digits[k - at];
      }
    }

    /** The checksum loop over the header bytes. */
    method SumBytes(at: nat, n: nat) returns (sum: nat)
      requires at + n <= disk.Length
      ensures sum == ByteSum(disk[at..at + n])
    {
      sum := 0;
      for i := 0 to n
        invariant sum == ByteSum(disk[at..at + i])
      {
        assert disk[at..at + i + 1][..i] == disk[at..at + i];
        sum := sum + disk[at + i];
      }
    }

    /** The header fields, checksum still empty. */
    method WriteFields(off: nat, name: seq<Byte>, size: nat)
      requires off + HEADER_SIZE <= disk.Length && |name| < NAME_SIZE
      requires forall k :: off <= k < off + HEADER_SIZE ==> disk[k] == 0
      modifies disk
      ensures Spliced(old(disk[..]), off, HeaderWith(name, size, BLANKS))
    {
      hide Octal;
      PutBytes(off, name + [0]);
      PutBytes(off + 100, MODE + [0]);
      PutBytes(off + 257, USTAR + [0]);
      PutBytes(off + 263, [48, 48, 0]);
      disk[off + 156] := 48;
      PutOctal(off + 124, 12, size);
    }

    method WriteHeader(off: nat, name: seq<Byte>, size: nat)
      requires off + HEADER_SIZE <= disk.Length && |name| < NAME_SIZE
      requires forall k :: off <= k < off + HEADER_SIZE ==> disk[k] == 0
      modifies disk
      ensures Spliced(old(disk[..]), off, Header(name, size))
    {
      hide Octal, ByteSum;
      WriteFields(off, name, size);
      assert disk[off..off + HEADER_SIZE] == HeaderWith(name, size, BLANKS);
      var sum := SumBytes(off, HEADER_SIZE);
      sum := 8 * 32 + sum;
      PutOctal(off + 148, 6, sum);
    }

    /** `memset(disk, 0, sizeof(disk))`. */
    method ClearDisk()
      modifies disk
      ensures forall k :: 0 <= k < disk.Length ==> disk[k] == 0
    {
      for i := 0 to disk.Length
        invariant forall k :: 0 <= k < i ==> disk[k] == 0
      {
        disk[i] := 0;
      }
    }

    /** The disk holds the entries of the first `i` files and zeros after them. */
    ghost predicate Printed(i: nat, off: nat)
      reads this, files, disk
      requires i <= files.Length && FlushOk(files[..])
    {
      && UsedStorable(files[..i])
      && off == |Entries(files[..i])| <= disk.Length
      && disk[..off] == Entries(files[..i])
      && (forall k :: off <= k < disk.Length ==> disk[k] == 0)
    }

    /** One turn of the loop of `fs_flush`. */
    method PrintFile(i: nat, off: nat) returns (next: nat)
      requires Valid() && i < files.Length && FlushOk(files[..]) && Printed(i, off) && files[i].inUse
      modifies disk
      ensures Printed(i + 1, next)
    {
      hide Header, Entries, AlignUp, Entry;
      var f := files[i];
      EntriesGrow(files[..], i);
      ghost var was := disk[..];
      WriteHeader(off, f.name, f.size);
      ghost var mid := disk[..];
      assert IsSplice(was, mid, off, Header(f.name, f.size));
      PutBytes(off + HEADER_SIZE, f.data[..f.size]);
      ghost var end := disk[..];
      assert IsSplice(mid, end, off + HEADER_SIZE, f.data[..f.size]);
      next := off + AlignUp(HEADER_SIZE + f.size);
      EntryPlaced(was, mid, end, off, f);
      assert disk[..next] == end[..next] && was[..off] == Entries(files[..i]);
    }

    /** `fs_flush`; gives the image written to the device. */
    method Flush() returns (medium: seq<Byte>)
      requires Valid() && FlushOk(files[..])
      modifies disk
      ensures medium == Archive(files[..]) && disk[..] == medium
    {
      hide Entries;
      ClearDisk();
      var off: nat := 0;
      NoEntries(files[..0]);
      for i := 0 to files.Length
        invariant FlushOk(files[..]) && Printed(i, off)
      {
        if !files[i].inUse {
          SkipEntry(files[..], i);
          continue;
        }
        off := PrintFile(i, off);
      }
      assert files[..files.Length] == files[..];
      assert disk[..] == disk[..off] + disk[off..];
      medium := [];
      for sector := 0 to DISK_SIZE / SECTOR_SIZE
        invariant medium == disk[..sector * SECTOR_SIZE]
      {
        medium := medium + disk[sector * SECTOR_SIZE..sector * SECTOR_SIZE + SECTOR_SIZE];
      }
    }

    /** The first loop of `fs_init`: all sectors into the buffer. */
    method ReadSectors(medium: seq<Byte>)
      requires Valid() && |medium| == DISK_SIZE
      modifies disk
      ensures disk[..] == medium
    {
      for i := 0 to disk.Length
        invariant forall k :: 0 <= k < i ==> disk[k] == medium[k]
      {
        disk[i] := medium[i];
      }
    }

    /** The checks at the top of the loop of `fs_init`. */
    method CheckHeader(off: nat) returns (h: Head)
      requires Valid()
      ensures h == ReadHead(disk[..], off)
    {
      hide CString, OctValue;
      if off + HEADER_SIZE > disk.Length {
        return Bad(OutOfBounds);
      }
      if disk[off] == 0 {
        return EndOfArchive;
      }
      SlicesAgree(disk, disk[..], off + 257, off + 263);
      if CString(disk[off + 257..off + 263]) != USTAR {
        return Bad(BadMagic);
      }
      var size := OctToInt(disk[off + 124..off + 136]);
      SlicesAgree(disk, disk[..], off + 124, off + 136);
      if size.None? || size.value < 0 || size.value > DATA_SIZE || off + HEADER_SIZE + size.value > disk.Length {
        return Bad(OutOfBounds);
      }
      SlicesAgree(disk, disk[..], off, off + NAME_SIZE);
      if |CString(disk[off..off + NAME_SIZE])| == NAME_SIZE {
        return Bad(OutOfBounds);
      }
      return Found(size.value);
    }

    /** The rest of the loop body: name, contents and size into slot `i`. */
    method LoadFile(i: nat, off: nat, size: nat)
      requires Valid() && i < files.Length && files[i] == Blank()
      requires size <= DATA_SIZE && off + HEADER_SIZE + size <= disk.Length
      modifies files
      ensures files[..] == old(files[..])[i := Loaded(disk[..], off, size)]
    {
      hide CString;
      LoadedOverBlank(disk[..], off, size);
      SlicesAgree(disk, disk[..], off, off + NAME_SIZE);
      SlicesAgree(disk, disk[..], off + HEADER_SIZE, off + HEADER_SIZE + size);
      files[i] := File(true, CString(disk[off..off + NAME_SIZE]),
                       disk[off + HEADER_SIZE..off + HEADER_SIZE + size] + files[i].data[size..], size);
    }

    /** `fs_init` on an empty file table. */
    method Init(medium: seq<Byte>) returns (r: ParseResult)
      requires Valid() && |medium| == DISK_SIZE
      requires forall i :: 0 <= i < files.Length ==> files[i] == Blank()
      modifies files, disk
      ensures r == Parse(medium, 0, FILES_MAX)
      ensures r.Parsed? ==> |r.files| <= FILES_MAX && files[..|r.files|] == r.files
      ensures r.Parsed? ==> forall i :: |r.files| <= i < FILES_MAX ==> files[i] == Blank()
    {
      hide Loaded, ReadHead, AlignUp, Blank;
      ReadSectors(medium);
      var off: nat := 0;
      for i := 0 to files.Length
        invariant disk[..] == medium
        invariant forall j :: i <= j < files.Length ==> files[j] == Blank()
        invariant Parse(medium, 0, FILES_MAX) == After(files[..i], Parse(medium, off, FILES_MAX - i))
      {
        var head := CheckHeader(off);
        if head == EndOfArchive {
          return Parsed(files[..i]);
        }
        if head.Bad? {
          return head.why;
        }
        ghost var done, next := files[..i], off + AlignUp(HEADER_SIZE + head.size);
        LoadFile(i, off, head.size);
        assert files[..i + 1] == done + [Loaded(medium, off, head.size)];
        AfterSnoc(done, Loaded(medium, off, head.size), Parse(medium, next, FILES_MAX - i - 1));
        off := off + AlignUp(HEADER_SIZE + head.size);
      }
      return Parsed(files[..]);
    }

    static lemma SlicesAgree(a: array<Byte>, s: seq<Byte>, i: nat, j: nat)
      requires a[..] == s && i <= j <= |s|
      ensures a[i..j] == s[i..j]
    {
    }
  }

  /** `now` is `was` with `s` written at `at`. */
  ghost predicate IsSplice(was: seq<Byte>, now: seq<Byte>, at: nat, s: seq<Byte>) {
    && |now| == |was| && at + |s| <= |was|
    && (forall k :: 0 <= k < |was| ==> now[k] == if at <= k < at + |s| then s[k - at] else was[k])
  }

  lemma SpliceSlice(was: seq<Byte>, now: seq<Byte>, at: nat, s: seq<Byte>)
    requires IsSplice(was, now, at, s)
    ensures now[at..at + |s|] == s && now[..at] == was[..at] && now[at + |s|..] == was[at + |s|..]
  {
  }

  lemma ZeroSlice(s: seq<Byte>, i: nat, j: nat)
    requires i <= j <= |s| && forall k :: i <= k < j ==> s[k] == 0
    ensures s[i..j] == Zeros(j - i)
  {
  }

  /** A header and contents written over zeros make an entry. */
  lemma EntryPlaced(was: seq<Byte>, mid: seq<Byte>, end: seq<Byte>, off: nat, f: File)
    requires Storable(f) && off + EntrySize(f) <= |was| && forall k :: off <= k < |was| ==> was[k] == 0
    requires IsSplice(was, mid, off, Header(f.name, f.size))
    requires IsSplice(mid, end, off + HEADER_SIZE, f.data[..f.size])
    ensures |end| == |was| && end[..off + EntrySize(f)] == was[..off] + Entry(f)
    ensures forall k :: off + EntrySize(f) <= k < |end| ==> end[k] == 0
  {
    hide Header, AlignUp;
    var at, data, next := off + HEADER_SIZE, f.data[..f.size], off + EntrySize(f);
    SpliceSlice(was, mid, off, Header(f.name, f.size));
    SpliceSlice(mid, end, at, data);
    assert end[..at] == mid[..at] == was[..off] + Header(f.name, f.size);
    ZeroSlice(end, at + |data|, next);
    assert end[..next] == end[..at] + end[at..at + |data|] + end[at + |data|..next];
    Regroup(was[..off], Header(f.name, f.size), data, Zeros(next - at - |data|));
  }

  lemma Regroup(a: seq<Byte>, b: seq<Byte>, c: seq<Byte>, d: seq<Byte>)
    ensures a + b + c + d == a + (b + c + d)
  {
  }

  lemma OctalLast(n: nat, i: nat)
    requires i > 0
    ensures Octal(n, i)[i - 1] == n % 8 + 48 && Octal(n, i)[..i - 1] == Octal(n / 8, i - 1)
  {
  }

  lemma AfterSnoc(done: seq<File>, f: File, r: ParseResult)
    ensures After(done + [f], r) == After(done, After([f], r))
  {
    if r.Parsed? {
      assert done + [f] + r.files == done + ([f] + r.files);
    }
  }

  lemma LoadedOverBlank(disk: seq<Byte>, off: nat, size: nat)
    requires off + HEADER_SIZE + size <= |disk| && size <= DATA_SIZE
    ensures Loaded(disk, off, size) ==
            File(true, CString(disk[off..off + NAME_SIZE]),
                 disk[off + HEADER_SIZE..off + HEADER_SIZE + size] + Blank().data[size..], size)
  {
    assert Zeros(DATA_SIZE)[size..] == Zeros(DATA_SIZE - size);
  }

  lemma NoEntries(files: seq<File>)
    requires files == []
    ensures UsedStorable(files) && Entries(files) == []
  {
  }

  lemma {:induction false} EntriesPrefix(files: seq<File>, i: nat)
    requires UsedStorable(files) && i <= |files|
    ensures UsedStorable(files[..i]) && |Entries(files[..i])| <= |Entries(files)|
    decreases |files|
  {
    hide Entry, Storable;
    if i < |files| {
      var n := |files| - 1;
      EntriesPrefix(files[..n], i);
      assert files[..n][..i] == files[..i];
    } else {
      assert files[..i] == files;
    }
  }

  lemma EntriesGrow(files: seq<File>, i: nat)
    requires FlushOk(files) && i < |files| && files[i].inUse
    ensures UsedStorable(files[..i]) && UsedStorable(files[..i + 1]) && Storable(files[i])
    ensures Entries(files[..i + 1]) == Entries(files[..i]) + Entry(files[i])
    ensures |Entries(files[..i])| + EntrySize(files[i]) <= DISK_SIZE
  {
    hide Entry, Storable;
    EntriesPrefix(files, i);
    EntriesPrefix(files, i + 1);
    assert files[..i + 1][..i] == files[..i];
  }

  lemma SkipEntry(files: seq<File>, i: nat)
    requires FlushOk(files) && i < |files| && !files[i].inUse
    ensures UsedStorable(files[..i]) && UsedStorable(files[..i + 1])
    ensures Entries(files[..i + 1]) == Entries(files[..i])
  {
    hide Entry, Storable;
    EntriesPrefix(files, i + 1);
    assert files[..i + 1][..i] == files[..i];
  }

  /** `fs_flush` followed by `fs_init` on the next boot: the files that were in use come back with the
      same names, sizes and contents, and nothing else does. */
  method FlushThenInit(before: Fs, after: Fs) returns (r: ParseResult)
    requires before.Valid() && after.Valid() && before.disk != after.disk && before.files != after.files
    requires FlushOk(before.files[..])
    requires forall i :: 0 <= i < after.files.Length ==> after.files[i] == Blank()
    modifies before.disk, after.files, after.disk
    ensures AllStorable(Used(before.files[..])) && r == Parsed(RestoredAll(Used(before.files[..])))
    ensures after.files[..|r.files|] == r.files
    ensures forall i :: |r.files| <= i < FILES_MAX ==> after.files[i] == Blank()
  {
    hide Parse, Archive, Used;
    TarRestores(before.files[..]);
    var medium := before.Flush();
    r := after.Init(medium);
  }
}
