/**
  The disk of kernel/ide.cc: byte ranges read and written through whole 512-byte sectors.  The
  drive itself (readSector, writeSector) is taken as an exact array of sectors.
*/
module IdeDisk {
  type Byte = x: nat | x < 256

  const SECTOR: nat := 512

  /** d with the bytes b at offset. */
  function Patch(d: seq<Byte>, offset: nat, b: seq<Byte>): (r: seq<Byte>)
    requires offset + |b| <= |d|
    ensures |r| == |d|
    ensures forall i :: 0 <= i < |d| ==> r[i] == if offset <= i < offset + |b| then b[i - offset] else d[i]
  {
    d[..offset] + b + d[offset + |b|..]
  }

  lemma PatchTwice(d: seq<Byte>, offset: nat, b: seq<Byte>, c: seq<Byte>)
    requires offset + |b| + |c| <= |d|
    ensures Patch(Patch(d, offset, b), offset + |b|, c) == Patch(d, offset, b + c)
  {
  }

  lemma PatchNone(d: seq<Byte>, offset: nat)
    requires offset <= |d|
    ensures Patch(d, offset, []) == d
  {
  }

  class Ide {
    const disk: array<Byte>

    ghost predicate Valid() { disk.Length % SECTOR == 0 }

    constructor (bytes: seq<Byte>)
      requires |bytes| % SECTOR == 0
      ensures Valid() && fresh(disk) && disk[..] == bytes
    {
      disk := new Byte[|bytes|](i requires 0 <= i < |bytes| => bytes[i]);
    }

    method ReadSector(sector: nat) returns (data: seq<Byte>)
      requires (sector + 1) * SECTOR <= disk.Length
      ensures data == disk[sector * SECTOR..(sector + 1) * SECTOR]
    {
      data := disk[sector * SECTOR..(sector + 1) * SECTOR];
    }

    method WriteSector(sector: nat, data: seq<Byte>)
      requires (sector + 1) * SECTOR <= disk.Length && |data| == SECTOR
      modifies disk
      ensures disk[..] == Patch(old(disk[..]), sector * SECTOR, data)
    {
      var base := sector * SECTOR;
      for i := 0 to SECTOR
        invariant forall k :: 0 <= k < disk.Length ==>
          disk[k] == if base <= k < base + i then data[k - base] else old(disk[k])
      {
        disk[base + i] := data[i];
      }
    }

    /** The part of a transfer of n bytes that lies in the first sector. */
    function Count(offset: nat, n: nat): nat {
      if offset % SECTOR + n > SECTOR then SECTOR - offset % SECTOR else n
    }

    lemma SectorInside(offset: nat, n: nat)
      requires Valid() && offset + n <= disk.Length && n > 0
      ensures (offset / SECTOR + 1) * SECTOR <= disk.Length
      ensures offset / SECTOR * SECTOR + offset % SECTOR == offset
    {
    }

    /** A sector with part of it replaced, written back, is that part written. */
    lemma SectorPatched(d: seq<Byte>, base: nat, start: nat, c: seq<Byte>)
      requires base + SECTOR <= |d| && start + |c| <= SECTOR
      ensures var data := d[base..base + SECTOR];
        && |data[..start] + c + data[start + |c|..]| == SECTOR
        && Patch(d, base, data[..start] + c + data[start + |c|..]) == Patch(d, base + start, c)
    {
    }

    method Read(offset: nat, n: nat) returns (r: seq<Byte>)
      requires Valid() && offset + n <= disk.Length
      ensures r == disk[offset..offset + Count(offset, n)]
    {
      var sector, start := offset / SECTOR, offset % SECTOR;
      var end := start + n;
      if end > SECTOR {
        end := SECTOR;
      }
      var count := end - start;
      if count == SECTOR {
        SectorInside(offset, n);
        r := ReadSector(sector);
        assert start == 0 && sector * SECTOR == offset;
      } else if count != 0 {
        SectorInside(offset, n);
        var data := ReadSector(sector);
        r := data[start..start + count];
      } else {
        r := [];
      }
    }

    method ReadAll(offset: nat, n: nat) returns (r: seq<Byte>)
      requires Valid() && offset + n <= disk.Length
      ensures r == disk[offset..offset + n]
    {
      r := [];
      var at, left := offset, n;
      while left > 0
        invariant left >= 0 && at + left == offset + n && at == offset + |r| && r == disk[offset..at]
        decreases left
      {
        var chunk := Read(at, left);
        if |chunk| == 0 {
          return;
        }
        r, at, left := r + chunk, at + |chunk|, left - |chunk|;
      }
    }

    method Write(offset: nat, b: seq<Byte>) returns (count: nat)
      requires Valid() && offset + |b| <= disk.Length
      modifies disk
      ensures count == Count(offset, |b|)
      ensures disk[..] == Patch(old(disk[..]), offset, b[..count])
    {
      hide Patch;
      var sector, start := offset / SECTOR, offset % SECTOR;
      var end := start + |b|;
      if end > SECTOR {
        end := SECTOR;
      }
      count := end - start;
      if count == SECTOR {
        SectorInside(offset, |b|);
        WriteSector(sector, b[..SECTOR]);
        assert start == 0 && sector * SECTOR == offset;
      } else if count != 0 {
        SectorInside(offset, |b|);
        var data := ReadSector(sector);
        SectorPatched(disk[..], sector * SECTOR, start, b[..count]);
        WriteSector(sector, data[..start] + b[..count] + data[start + count..]);
      } else {
        PatchNone(disk[..], offset);
      }
    }

    method WriteAll(offset: nat, b: seq<Byte>) returns (total: nat)
      requires Valid() && offset + |b| <= disk.Length
      modifies disk
      ensures disk[..] == Patch(old(disk[..]), offset, b) && total == |b|
    {
      hide Patch;
      PatchNone(disk[..], offset);
      total := 0;
      var at, left := offset, b;
      ghost var done: seq<Byte> := [];
      while |left| > 0
        invariant done + left == b && at == offset + |done| && total == |done|
        invariant disk[..] == Patch(old(disk[..]), offset, done)
        decreases |left|
      {
        var count := Write(at, left);
        if count == 0 {
          return;
        }
        PatchTwice(old(disk[..]), offset, done, left[..count]);
        assert left[..count] + left[count..] == left;
        done, total, at, left := done + left[..count], total + count, at + count, left[count..];
      }
      assert done == b;
    }
  }
}
