/**
  BobFS of kernel/bobfs.cc over the sector disk.  A Node of the source is a pair of file system
  and inumber, so its methods take the inumber here.  Files are changed one operation at a time.
*/
module BobFiles {
  import opened Directories
  import opened IdeDisk
  import opened Options
  import opened Volume
  import opened VolumeLayout

  /** "BOBFS439" */
  const SIGNATURE: seq<Byte> := [0x42, 0x4F, 0x42, 0x46, 0x53, 0x34, 0x33, 0x39]

  class BobFS {
    const device: Ide
    ghost var own: Owners
    ghost var dirs: Dirs

    ghost predicate Mounted()
      reads device.disk
    {
      device.Valid() && device.disk.Length >= END
    }

    function Vol(): Vol
      reads device.disk
      requires Mounted()
    {
      Decode(device.disk[..])
    }

    ghost predicate Valid()
      reads this, device.disk
    {
      Mounted() && Ok(Vol(), own)
    }

    ghost predicate ValidTree()
      reads this, device.disk
    {
      Valid() && Tree(Vol(), dirs)
    }

    /** BobFS::mount */
    constructor (device: Ide, ghost own: Owners, ghost dirs: Dirs)
      requires device.Valid() && device.disk.Length >= END
      requires Ok(Decode(device.disk[..]), own) && Tree(Decode(device.disk[..]), dirs)
      ensures ValidTree() && this.device == device && this.own == own && this.dirs == dirs
    {
      this.device, this.own, this.dirs := device, own, dirs;
    }

    // ---- words of the disk

    method ReadWord(o: nat) returns (x: Word32)
      requires Mounted() && o + 4 <= device.disk.Length
      ensures x == Word(device.disk[..], o)
    {
      var b := device.ReadAll(o, 4);
      x := Word(b, 0);
    }

    method WriteWord(o: nat, x: Word32)
      requires Mounted() && o + 4 <= device.disk.Length
      modifies device.disk
      ensures device.disk[..] == Patch(old(device.disk[..]), o, Bytes(x))
    {
      var n := device.WriteAll(o, Bytes(x));
    }

    method ReadHalf(o: nat) returns (x: Word16)
      requires Mounted() && o + 2 <= device.disk.Length
      ensures x == Half(device.disk[..], o)
    {
      var b := device.ReadAll(o, 2);
      x := Half(b, 0);
    }

    method WriteHalf(o: nat, x: Word16)
      requires Mounted() && o + 2 <= device.disk.Length
      modifies device.disk
      ensures device.disk[..] == Patch(old(device.disk[..]), o, HalfBytes(x))
    {
      var n := device.WriteAll(o, HalfBytes(x));
    }

    // ---- bitmaps

    /** The inner loop of Bitmap::find, on a word with a clear bit. */
    method FirstClear(word: Word32) returns (j: nat, mask: nat)
      requires word != 0xFFFF_FFFF
      ensures j < 32 && !Bit(word, j) && mask == Pow2(j)
      ensures forall k :: 0 <= k < j ==> Bit(word, k)
    {
      j, mask := 0, 1;
      while j < 32
        invariant j <= 32 && mask == Pow2(j)
        invariant forall k :: 0 <= k < j ==> Bit(word, k)
      {
        if !Bit(word, j) {
          return;
        }
        mask := mask * 2;
        j := j + 1;
      }
      Pow32();
      OnlyOnes(word, 32);
    }

    /** Bitmap::find: the first clear bit, which it sets; -1 when there is none. */
    method FindClear(base: nat) returns (idx: int)
      requires Mounted() && base + 1024 <= END && base % 4 == 0
      modifies device.disk
      ensures -1 <= idx < COUNT
      ensures idx < 0 ==> device.disk[..] == old(device.disk[..])
      ensures idx < 0 ==> forall k :: 0 <= k < COUNT ==> BitAt(old(device.disk[..]), base, k)
      ensures idx >= 0 ==> !BitAt(old(device.disk[..]), base, idx)
      ensures idx >= 0 ==> forall k :: 0 <= k < idx ==> BitAt(old(device.disk[..]), base, k)
      ensures idx >= 0 ==> BitWritten(old(device.disk[..]), device.disk[..], base, idx)
    {
      hide Bit, SetBit, Patch, Word, BitAt, Bytes;
      ghost var d := device.disk[..];
      var i := 0;
      while i < BLOCK
        invariant 0 <= i <= BLOCK && i % 4 == 0 && device.disk[..] == d
        invariant forall k :: 0 <= k < COUNT && k < i * 8 ==> BitAt(d, base, k)
        decreases BLOCK - i
      {
        var word := ReadWord(base + i);
        if word != 0xFFFF_FFFF {
          var j, mask := FirstClear(word);
          assert (i * 8 + j) / 32 * 4 == i && (i * 8 + j) % 32 == j;
          FoundBit(d, base, i, j, word);
          SetBitWord(word, j);
          SetIsAdd(word, j);
          WriteWord(base + i, word + mask);
          return i * 8 + j;
        }
        FullWord(d, base, i);
        i := i + 4;
      }
      idx := -1;
    }

    /** The first clear bit of a word, as a bit of the map */
    lemma FoundBit(d: seq<Byte>, base: nat, i: nat, j: nat, word: Word32)
      requires base + 1024 <= |d| && i + 4 <= 1024 && i % 4 == 0 && j < 32 && word == Word(d, base + i)
      requires !Bit(word, j) && forall k :: 0 <= k < j ==> Bit(word, k)
      ensures i * 8 + j < COUNT && !BitAt(d, base, i * 8 + j)
      ensures forall k :: i * 8 <= k < i * 8 + j ==> BitAt(d, base, k)
    {
      hide Bit, Word;
      assert (i * 8 + j) / 32 * 4 == i && (i * 8 + j) % 32 == j;
      forall k | i * 8 <= k < i * 8 + j ensures BitAt(d, base, k) {
        assert k / 32 * 4 == i && k % 32 == k - i * 8;
      }
    }

    lemma SetIsAdd(w: nat, j: nat)
      requires !Bit(w, j)
      ensures SetBit(w, j) == w + Pow2(j)
    {
    }

    /** A word of all ones has all its bits set. */
    lemma FullWord(d: seq<Byte>, base: nat, i: nat)
      requires base + 1024 <= |d| && i + 4 <= 1024 && i % 4 == 0 && Word(d, base + i) == 0xFFFF_FFFF
      ensures forall k :: 0 <= k < COUNT && i * 8 <= k < i * 8 + 32 ==> BitAt(d, base, k)
    {
      hide Bit, Word;
      Pow32();
      forall k | 0 <= k < COUNT && i * 8 <= k < i * 8 + 32 ensures BitAt(d, base, k) {
        assert k / 32 * 4 == i;
        OnesBits(32, k % 32);
      }
    }
  
    // ---- fields of an inode

    method GetSize(k: nat) returns (x: Word32)
      requires Mounted() && k < COUNT
      ensures x == Vol().inodes[k].size
    {
      x := ReadWord(INODES + 16 * k + 4);
    }

    method GetDirect(k: nat) returns (x: Word32)
      requires Mounted() && k < COUNT
      ensures x == Vol().inodes[k].direct
    {
      x := ReadWord(INODES + 16 * k + 8);
    }

    method GetIndirect(k: nat) returns (x: Word32)
      requires Mounted() && k < COUNT
      ensures x == Vol().inodes[k].indirect
    {
      x := ReadWord(INODES + 16 * k + 12);
    }

    method GetLinks(k: nat) returns (x: Word16)
      requires Mounted() && k < COUNT
      ensures x == Vol().inodes[k].links
    {
      x := ReadHalf(INODES + 16 * k + 2);
    }

    method SetSize(k: nat, x: Word32)
      requires Mounted() && k < COUNT
      modifies device.disk
      ensures Vol() == old(Vol()).(inodes := old(Vol()).inodes[k := old(Vol()).inodes[k].(size := x)])
    {
      hide Decode, Patch;
      InodeWord(device.disk[..], k, 4, x);
      WriteWord(INODES + 16 * k + 4, x);
    }

    method SetDirect(k: nat, x: Word32)
      requires Mounted() && k < COUNT
      modifies device.disk
      ensures Vol() == old(Vol()).(inodes := old(Vol()).inodes[k := old(Vol()).inodes[k].(direct := x)])
    {
      hide Decode, Patch;
      InodeWord(device.disk[..], k, 8, x);
      WriteWord(INODES + 16 * k + 8, x);
    }

    method SetIndirect(k: nat, x: Word32)
      requires Mounted() && k < COUNT
      modifies device.disk
      ensures Vol() == old(Vol()).(inodes := old(Vol()).inodes[k := old(Vol()).inodes[k].(indirect := x)])
    {
      hide Decode, Patch;
      InodeWord(device.disk[..], k, 12, x);
      WriteWord(INODES + 16 * k + 12, x);
    }

    method SetType(k: nat, x: Word16)
      requires Mounted() && k < COUNT
      modifies device.disk
      ensures Vol() == old(Vol()).(inodes := old(Vol()).inodes[k := old(Vol()).inodes[k].(kind := x)])
    {
      hide Decode, Patch;
      InodeHalf(device.disk[..], k, 0, x);
      WriteHalf(INODES + 16 * k, x);
    }

    method SetLinks(k: nat, x: Word16)
      requires Mounted() && k < COUNT
      modifies device.disk
      ensures Vol() == old(Vol()).(inodes := old(Vol()).inodes[k := old(Vol()).inodes[k].(links := x)])
    {
      hide Decode, Patch;
      InodeHalf(device.disk[..], k, 2, x);
      WriteHalf(INODES + 16 * k + 2, x);
    }

    // ---- blocks

    /** The number of a zeroed block that was free; 0 when the bitmap is full. */
    method AllocateBlock() returns (n: nat)
      requires Mounted()
      modifies device.disk
      ensures n == 0 <==> Free(old(Vol())) == 0
      ensures n == 0 ==> Vol() == old(Vol())
      ensures n != 0 ==> IsBlock(n) && !old(Vol()).taken[n - FIRST] && Vol() == Allocated(old(Vol()), n - FIRST)
      ensures n != 0 ==> forall b :: 0 <= b < n - FIRST ==> old(Vol()).taken[b]
    {
      hide Decode, Patch, Bit, BitAt;
      ghost var d := device.disk[..];
      var index := FindClear(DATA_MAP);
      TakenBits(d);
      NoFree(Decode(d));
      if index == -1 {
        return 0;
      }
      DataBitSet(d, device.disk[..], index);
      var blockIndex := DATA / BLOCK + index;
      BlockBytes(device.disk[..], index, 0, Zeros(BLOCK));
      ZeroBlock(Decode(device.disk[..]).data[index]);
      var w := device.WriteAll(blockIndex * BLOCK, Zeros(BLOCK));
      return blockIndex;
    }

    /**
      getBlockNumber: finds block i of file k, or allocates what is missing of it.  0 beyond the
      block map and when the free blocks do not suffice; no file changes in any case.
    */
    method GetBlockNumber(k: nat, i: nat) returns (n: nat)
      requires Valid() && k < COUNT && Vol().used[k]
      modifies this`own, device.disk
      ensures Valid() && Quiet(old(Vol()), Vol())
      ensures n == 0 <==> i > ENTRIES || Free(old(Vol())) < Needs(old(Vol()), k, i, i + 1)
      ensures n != 0 ==> Ptr(Vol(), SlotOf(k, i)) == n && Reached(old(Vol()), Vol(), k, i)
    {
      hide Decode, Ok, Quiet, Reached, Ptr, Needs, Claims, Free, Live;
      ghost var v := Vol();
      QuietSelf(v, own);
      if i == 0 {
        var x := GetDirect(k);
        DirectFacts(v, own, k);
        if x == 0 {
          x := AllocateBlock();
          if x != 0 {
            ClaimsDirect(v, own, x - FIRST, k);
            ClaimKeeps(v, own, x - FIRST, Direct(k));
            ReachedClaim(v, own, x - FIRST, k, 0);
            own := own[x - FIRST := Some(Direct(k))];
          }
          SetDirect(k, x);
          SameDirect(v, k);
        }
        return x;
      }
      var blockIndex := i - 1;
      if blockIndex >= BLOCK / 4 {
        return 0;
      }
      var ind := GetIndirect(k);
      IndirectFacts(v, own, k, i);
      if ind == 0 {
        ind := AllocateBlock();
        if ind == 0 {
          return 0;
        }
        ClaimsIndirect(v, own, ind - FIRST, k);
        ClaimKeeps(v, own, ind - FIRST, Indirect(k));
        own := own[ind - FIRST := Some(Indirect(k))];
        SetIndirect(k, ind);
        n := GetEntry(k, i, ind);
        TwoFacts(v, old(own), ind - FIRST, Vol(), k, i, n);
        QuietTrans(v, Claimed(v, ind - FIRST, Indirect(k)), Vol());
      } else {
        n := GetEntry(k, i, ind);
      }
    }

    /** The end of getBlockNumber, when the indirect block `ind` is there. */
    method GetEntry(k: nat, i: nat, ind: nat) returns (n: nat)
      requires Valid() && k < COUNT && Vol().used[k] && 0 < i <= ENTRIES
      requires ind == Vol().inodes[k].indirect && ind != 0
      modifies this`own, device.disk
      ensures Valid() && Quiet(old(Vol()), Vol())
      ensures n == 0 <==> Free(old(Vol())) < Needs(old(Vol()), k, i, i + 1)
      ensures n != 0 ==> Ptr(Vol(), SlotOf(k, i)) == n && Reached(old(Vol()), Vol(), k, i)
    {
      hide Decode, Ok, Quiet, Reached, Ptr, Needs, Claims, Free, Live, Patch, Word;
      ghost var v := Vol();
      QuietSelf(v, own);
      EntryFacts(v, own, k, i);
      var j := i - 1;
      var xOffset := ind * BLOCK + j * 4;
      BlockWord(device.disk[..], ind - FIRST, j);
      var x := ReadWord(xOffset);
      if x == 0 {
        x := AllocateBlock();
        if x != 0 {
          ClaimsEntry(v, own, x - FIRST, k, i);
          ClaimKeeps(v, own, x - FIRST, SlotOf(k, i));
          ReachedClaim(v, own, x - FIRST, k, i);
          own := own[x - FIRST := Some(SlotOf(k, i))];
        }
        BlockBytes(device.disk[..], ind - FIRST, 4 * j, Bytes(x));
        WriteWord(xOffset, x);
        SameEntry(v, ind - FIRST, j);
      }
      return x;
    }

    // ---- files

    /**
      Node::write: the part of c that fits in the first sector of the first block.  `hi` is the
      block that the caller's transfer stops before.
    */
    method Write(k: nat, off: nat, c: seq<Byte>, ghost hi: nat) returns (x: nat)
      requires Valid() && k < COUNT && Vol().used[k]
      requires |c| > 0 && off + |c| <= SPAN && off / BLOCK < hi && Enough(Vol(), k, off / BLOCK, hi)
      modifies this`own, device.disk
      ensures Valid() && 0 < x <= |c| && Rewrote(old(Vol()), Vol(), k, off, c[..x])
      ensures Enough(Vol(), k, off / BLOCK, hi) && Enough(Vol(), k, off / BLOCK + 1, hi)
      ensures (off + x) / BLOCK <= off / BLOCK + 1
    {
      hide Decode, Ok, Quiet, Reached, Ptr, Needs, Free, Patch, Enough, Rewrote, Writes, Live;
      ghost var v := Vol();
      var blockIndex, start := off / BLOCK, off % BLOCK;
      var end := start + |c|;
      if end > BLOCK {
        end := BLOCK;
      }
      var count := end - start;
      EnoughFirst(v, k, blockIndex, hi);
      var blockNumber := GetBlockNumber(k, blockIndex);
      ghost var v1 := Vol();
      EnoughStep(v, v1, k, blockIndex, hi);
      SizeKept(v, v1, k, blockIndex);
      WritesHere(v1, own, k, blockIndex, start, c[..count]);
      BlockBytesAt(device.disk[..], blockNumber, start, c[..count], device.Count(blockNumber * BLOCK + start, count));
      x := device.Write(blockNumber * BLOCK + start, c[..count]);
      assert c[..count][..x] == c[..x];
      ghost var v2 := Vol();
      var newSize := off + x;
      var oldSize := GetSize(k);
      if newSize > oldSize {
        SetSize(k, newSize);
      }
      WrittenIs(v1, v2, Vol(), k, blockIndex, start, c[..x]);
      WritesHere(v1, own, k, blockIndex, start, c[..x]);
      WriteKeeps(v1, own, k, blockIndex, start, c[..x]);
      SizeFits(v, own, k, old(own));
      QuietThen(v, v1, Vol(), k, off, c[..x]);
      EnoughWritten(v1, own, k, blockIndex, start, c[..x], blockIndex, hi);
      EnoughWritten(v1, own, k, blockIndex, start, c[..x], blockIndex + 1, hi);
    }

    /** Blocks from off/1024 up to this one hold n bytes at off. */
    function Stop(off: nat, n: nat): nat { (off + n + BLOCK - 1) / BLOCK }

    /** Node::writeAll; `hi` is where a longer transfer that it is part of stops. */
    method WriteAll(k: nat, off: nat, c: seq<Byte>, ghost hi: nat) returns (total: nat)
      requires Valid() && k < COUNT && Vol().used[k]
      requires off + |c| <= SPAN && Stop(off, |c|) <= hi && Enough(Vol(), k, off / BLOCK, hi)
      modifies this`own, device.disk
      ensures Valid() && total == |c| && Vol().used == old(Vol().used)
      ensures |c| > 0 ==> Rewrote(old(Vol()), Vol(), k, off, c)
      ensures |c| == 0 ==> Vol() == old(Vol())
      ensures Enough(Vol(), k, (off + |c|) / BLOCK, hi)
      ensures old(Tree(Vol(), dirs)) && k !in dirs ==> Tree(Vol(), dirs)
    {
      hide Decode, Ok, Enough, Rewrote, Tree;
      ghost var v := Vol();
      ghost var done: seq<Byte> := [];
      var at, left := off, c;
      total := 0;
      while |left| > 0
        invariant Valid() && Vol().used == v.used && done + left == c && at == off + |done| && total == |done|
        invariant Enough(Vol(), k, at / BLOCK, hi)
        invariant if done == [] then Vol() == v else Rewrote(v, Vol(), k, off, done)
        decreases |left|
      {
        ghost var v1 := Vol();
        InsideStop(off, |done|, |left|);
        var cnt := Write(k, at, left, hi);
        RewroteUsed(v1, Vol(), k, at, left[..cnt]);
        if done != [] {
          RewroteThen(v, v1, Vol(), k, off, done, left[..cnt]);
        } else {
          assert [] + left[..cnt] == left[..cnt];
        }
        assert done + left[..cnt] + left[cnt..] == done + left;
        done := done + left[..cnt];
        at, left, total := at + cnt, left[cnt..], total + cnt;
      }
      assert done == c;
      if |c| > 0 && Tree(v, dirs) && k !in dirs {
        OkFiles(v, old(own));
        TreeWrite(v, Vol(), dirs, k, off, c);
      }
    }

    lemma InsideStop(off: nat, done: nat, left: nat)
      requires left > 0
      ensures (off + done) / BLOCK < Stop(off, done + left)
    {
    }

    lemma OkFiles(v: Vol, own: Owners)
      requires Ok(v, own)
      ensures Sized(v) && Files(v)
    {
    }

    /** Node::read: bytes of the file from off, up to the end of a sector; a hole is filled on the way. */
    method Read(k: nat, off: nat, n: nat, ghost hi: nat) returns (r: seq<Byte>)
      requires Valid() && k < COUNT && Vol().used[k] && n > 0
      requires off < Vol().inodes[k].size ==> off / BLOCK < hi && Enough(Vol(), k, off / BLOCK, hi)
      modifies this`own, device.disk
      ensures Valid() && Quiet(old(Vol()), Vol()) && Vol().inodes[k].size == old(Vol().inodes[k].size)
      ensures if off >= old(Vol().inodes[k].size) then r == [] && Vol() == old(Vol())
        else 0 < |r| <= n && off + |r| <= old(Vol().inodes[k].size) && r == File(old(Vol()), k)[off..off + |r|]
      ensures off < old(Vol().inodes[k].size) ==>
        Enough(Vol(), k, off / BLOCK, hi) && Enough(Vol(), k, off / BLOCK + 1, hi) &&
        (off + |r|) / BLOCK <= off / BLOCK + 1
    {
      hide Decode, Ok, Quiet, Reached, Ptr, Needs, Free, Patch, Enough, Live;
      ghost var v := Vol();
      QuietSelf(v, own);
      var sz := GetSize(k);
      if sz <= off {
        return [];
      }
      SizeFits(v, own, k, own);
      var remaining := sz - off;
      var m := if remaining < n then remaining else n;
      var blockIndex, start := off / BLOCK, off % BLOCK;
      var end := start + m;
      if end > BLOCK {
        end := BLOCK;
      }
      var count := end - start;
      EnoughFirst(v, k, blockIndex, hi);
      var blockNumber := GetBlockNumber(k, blockIndex);
      ghost var v1 := Vol();
      EnoughStep(v, v1, k, blockIndex, hi);
      SizeKept(v, v1, k, blockIndex);
      r := device.Read(blockNumber * BLOCK + start, count);
      ReadIs(device.disk[..], v, k, off, blockNumber, r);
    }

    /** Node::readAll */
    method ReadAll(k: nat, off: nat, n: nat, ghost hi: nat) returns (r: seq<Byte>)
      requires Valid() && k < COUNT && Vol().used[k]
      requires Enough(Vol(), k, off / BLOCK, hi)
      requires off < Vol().inodes[k].size ==> Stop(off, Upto(Vol().inodes[k].size, off, n) - off) <= hi
      modifies this`own, device.disk
      ensures Valid() && Quiet(old(Vol()), Vol()) && Vol().used == old(Vol().used)
      ensures r == if off >= |File(old(Vol()), k)| then []
        else File(old(Vol()), k)[off..Upto(|File(old(Vol()), k)|, off, n)]
      ensures Enough(Vol(), k, (off + |r|) / BLOCK, hi)
      ensures old(Tree(Vol(), dirs)) ==> Tree(Vol(), dirs)
    {
      hide Decode, Ok, Quiet, Enough, Tree, File, Stop;
      ghost var v, sz := Vol(), Vol().inodes[k].size;
      ghost var f := File(v, k);
      QuietSelf(v, own);
      SizeFits(v, own, k, own);
      OkFiles(v, own);
      FileLength(v, k);
      r := [];
      var at, left := off, n;
      while left > 0
        invariant Valid() && Quiet(v, Vol()) && left >= 0 && at + left == off + n && at == off + |r|
        invariant Vol().used == v.used && Vol().inodes[k].size == sz
        invariant off < sz ==> at <= Upto(sz, off, n) && r == f[off..at]
        invariant off >= sz ==> r == []
        invariant Enough(Vol(), k, at / BLOCK, hi)
        decreases left
      {
        ghost var v1 := Vol();
        QuietFile(v, v1, k);
        if off < sz && at < sz {
          InsideStop(off, |r|, Upto(sz, off, n) - at);
        }
        var chunk := Read(k, at, left, hi);
        if |chunk| == 0 {
          break;
        }
        QuietTrans(v, v1, Vol());
        QuietUsed(v1, Vol());
        SlicesJoin(f, off, at, at + |chunk|);
        r, at, left := r + chunk, at + |chunk|, left - |chunk|;
      }
      if Tree(v, dirs) {
        TreeQuiet(v, Vol(), dirs);
      }
    }

    lemma SlicesJoin(f: seq<Byte>, i: nat, j: nat, k: nat)
      requires i <= j <= k <= |f|
      ensures f[i..j] + f[j..k] == f[i..k]
    {
    }

    /** Where a read of n bytes at off stops. */
    function Upto(size: nat, off: nat, n: nat): (e: nat)
      ensures off <= size ==> off <= e <= size
    {
      if off + n < size then off + n else size
    }

    // ---- directories

    /** linkNode: one more entry for `node` at the end of directory d. */
    method LinkNode(d: nat, name: seq<Byte>, node: nat)
      requires ValidTree() && d in dirs && node < COUNT && Vol().used[node] && Nameable(name)
      requires Vol().inodes[d].size + 8 + |name| <= SPAN
      requires Enough(Vol(), d, Vol().inodes[d].size / BLOCK, Stop(Vol().inodes[d].size, 8 + |name|))
      modifies this`own, this`dirs, device.disk
      ensures ValidTree() && dirs == old(dirs)[d := old(dirs)[d] + [DirEntry(node, name)]]
      ensures Vol().used == old(Vol().used) && Vol().root == old(Vol().root) && Vol().other == old(Vol().other)
      ensures forall k :: 0 <= k < COUNT && Vol().used[k] && k != d ==> File(Vol(), k) == old(File(Vol(), k))
      ensures forall k :: 0 <= k < COUNT && Vol().used[k] ==>
        CountedOnce(old(Vol()).inodes[k], Vol().inodes[k], k == node)
    {
      hide Decode, Ok, Enough, Rewrote, Tree, Bytes, WithLinks, Record, File, CountedOnce;
      ghost var v := Vol();
      DirUsed(v, dirs, d);
      ghost var size := v.inodes[d].size;
      ghost var hi := Stop(size, 8 + |name|);
      var links: nat := GetLinks(node);
      LinksKeep(v, own, node, (1 + links) % 0x1_0000);
      LinksKeepSizes(v, node, (1 + links) % 0x1_0000);
      SetLinks(node, (1 + links) % 0x1_0000);
      assert Vol() == WithLinks(v, node, (1 + links) % 0x1_0000) by { LinksSet(v, node, (1 + links) % 0x1_0000); }
      ghost var v1 := Vol();
      var offset := GetSize(d);
      var n := WriteAll(d, offset, Bytes(node), hi);
      ghost var v2 := Vol();
      n := WriteAll(d, offset + 4, Bytes(|name|), hi);
      ghost var v3 := Vol();
      n := WriteAll(d, offset + 4 + 4, name, hi);
      RewroteThen(v1, v2, v3, d, size, Bytes(node), Bytes(|name|));
      RecordWritten(v1, v3, Vol(), d, size, Bytes(node) + Bytes(|name|), name);
      assert Bytes(node) + Bytes(|name|) + name == Record(DirEntry(node, name)) by { RecordIs(node, name); }
      TreeLink(v, old(own), Vol(), dirs, d, node, DirEntry(node, name));
      LinkedFiles(v, old(own), v1, Vol(), d, size, Record(DirEntry(node, name)));
      LinkedInodes(v, Vol(), d, node, size, Record(DirEntry(node, name)));
      dirs := dirs[d := dirs[d] + [DirEntry(node, name)]];
    }

    /** The kind stays, and the links are one more where `more` says so. */
    predicate CountedOnce(i: Inode, i': Inode, more: bool) {
      i'.kind == i.kind && i'.links == if more then (1 + i.links) % 0x1_0000 else i.links
    }

    lemma LinkedInodes(v: Vol, v4: Vol, d: nat, node: nat, off: nat, c: seq<Byte>)
      requires Sized(v) && node < COUNT
      requires Rewrote(WithLinks(v, node, (1 + v.inodes[node].links) % 0x1_0000), v4, d, off, c)
      ensures forall k :: 0 <= k < COUNT && v4.used[k] ==> CountedOnce(v.inodes[k], v4.inodes[k], k == node)
    {
      hide File, ByteAt;
    }

    lemma DirUsed(v: Vol, dirs: Dirs, d: nat)
      requires Sized(v) && Tree(v, dirs) && d in dirs
      ensures d < COUNT && v.used[d] && v.root in dirs && Names(dirs[d]) && File(v, d) == Encode(dirs[d])
    {
    }

    lemma LinksSet(v: Vol, k: nat, links: Word16)
      requires Sized(v) && k < COUNT
      ensures v.(inodes := v.inodes[k := v.inodes[k].(links := links)]) == WithLinks(v, k, links)
    {
    }

    lemma LinksKeepSizes(v: Vol, k: nat, links: Word16)
      requires Sized(v) && k < COUNT
      ensures var v' := WithLinks(v, k, links);
        && v'.used == v.used && v'.root == v.root && v'.other == v.other
        && forall j :: 0 <= j < COUNT ==> v'.inodes[j].size == v.inodes[j].size
    {
    }

    lemma RecordIs(node: Word32, name: seq<Byte>)
      requires Nameable(name)
      ensures Bytes(node) + Bytes(|name|) + name == Record(DirEntry(node, name))
    {
    }

    /** The last of the three writes does nothing when the name is empty. */
    lemma RecordWritten(v1: Vol, v3: Vol, v4: Vol, d: nat, size: nat, c: seq<Byte>, name: seq<Byte>)
      requires Rewrote(v1, v3, d, size, c)
      requires |name| > 0 ==> Rewrote(v3, v4, d, size + |c|, name)
      requires |name| == 0 ==> v4 == v3
      ensures Rewrote(v1, v4, d, size, c + name)
    {
      hide Rewrote;
      if |name| > 0 { RewroteThen(v1, v3, v4, d, size, c, name); } else { assert c + name == c; }
    }

    lemma LinkedFiles(v: Vol, own: Owners, v1: Vol, v4: Vol, d: nat, off: nat, c: seq<Byte>)
      requires Ok(v, own) && Sized(v1) && v1.used == v.used && v1.root == v.root && Rewrote(v1, v4, d, off, c)
      requires v1.other == v.other
      requires forall j :: 0 <= j < COUNT ==> File(v1, j) == File(v, j) && v1.inodes[j].size == v.inodes[j].size
      ensures v4.used == v.used && v4.root == v.root && v4.other == v.other
      ensures forall k :: 0 <= k < COUNT && v.used[k] && k != d ==> File(v4, k) == File(v, k)
    {
      hide File, ByteAt;
      forall k | 0 <= k < COUNT && v.used[k] && k != d ensures File(v4, k) == File(v, k) {
        SameBytes(v1, v4, k);
      }
    }

    /** streq on two C strings, given without their final 0 */
    method StrEq(a: seq<Byte>, b: seq<Byte>) returns (eq: bool)
      requires Nameable(a) && Nameable(b)
      ensures eq <==> a == b
    {
      var p, q := a + [0], b + [0];
      var i := 0;
      while true
        invariant 0 <= i <= |a| && i <= |b| && p[..i] == q[..i] && a[..i] == b[..i]
        decreases |a| - i
      {
        var x, y := p[i], q[i];
        if x != y {
          return false;
        }
        if x == 0 {
          return true;
        }
        i := i + 1;
      }
    }

    /** findNode: the inumber of the first entry of that name */
    method FindNode(d: nat, name: seq<Byte>) returns (r: Option<nat>)
      requires ValidTree() && d in dirs && Nameable(name)
      requires Enough(Vol(), d, 0, Stop(0, Vol().inodes[d].size))
      modifies this`own, device.disk
      ensures ValidTree() && Quiet(old(Vol()), Vol()) && r == First(dirs[d], name)
    {
      hide Decode, Ok, Enough, Quiet, Tree, Encode, Word, File;
      ghost var v, es := Vol(), dirs[d];
      DirUsed(v, dirs, d);
      QuietSelf(v, own);
      SizeFits(v, own, d, own);
      FileLength(v, d);
      var sz := GetSize(d);
      ghost var hi, i := Stop(0, sz), 0;
      Ends(es);
      var offset := 0;
      while offset < sz
        invariant Valid() && Tree(Vol(), dirs) && Quiet(v, Vol()) && Vol().used == v.used
        invariant 0 <= i <= |es| && offset == |Encode(es[..i])| && Enough(Vol(), d, offset / BLOCK, hi)
        invariant forall j :: 0 <= j < i ==> es[j].name != name
        decreases |es| - i
      {
        Before(es, i);
        RecordAt(es, i);
        ghost var f, o := Encode(es), offset;
        var b := ReadEntry(d, offset, 4, v, hi);
        var ichild := Word(b, 0);
        offset := offset + 4;
        b := ReadEntry(d, offset, 4, v, hi);
        var len := Word(b, 0);
        offset := offset + 4;
        WordsOf(f, o);
        var ptr := ReadEntry(d, offset, len, v, hi);
        offset := offset + len;
        assert ptr == es[i].name;
        var cmp := StrEq(name, ptr);
        if cmp {
          FirstIs(es, name, i);
          return Some(ichild);
        }
        i := i + 1;
      }
      Before(es, i);
      FirstIs(es, name, i);
      return None;
    }

    /** readAll of n bytes that the directory has. */
    method ReadEntry(d: nat, off: nat, n: nat, ghost v: Vol, ghost hi: nat) returns (b: seq<Byte>)
      requires Valid() && Tree(Vol(), dirs) && Sized(v) && Quiet(v, Vol()) && Vol().used == v.used
      requires d < COUNT && v.used[d] && v.inodes[d].size <= SPAN && Stop(0, v.inodes[d].size) == hi
      requires off + n <= v.inodes[d].size && Enough(Vol(), d, off / BLOCK, hi)
      modifies this`own, device.disk
      ensures Valid() && Tree(Vol(), dirs) && Quiet(v, Vol()) && Vol().used == v.used
      ensures b == File(v, d)[off..off + n] && Enough(Vol(), d, (off + n) / BLOCK, hi)
    {
      hide Decode, Ok, Enough, Quiet, Tree;
      ghost var v1 := Vol();
      QuietFile(v, v1, d);
      FileLength(v, d);
      FileLength(v1, d);
      b := ReadAll(d, off, n, hi);
      QuietTrans(v, v1, Vol());
    }

    lemma WordsOf(f: seq<Byte>, o: nat)
      requires o + 8 <= |f|
      ensures Word(f[o..o + 4], 0) == Word(f, o) && Word(f[o + 4..o + 8], 0) == Word(f, o + 4)
    {
    }

    lemma Ends(es: seq<DirEntry>)
      requires Names(es)
      ensures |Encode(es[..0])| == 0
    {
      assert es[..0] == [];
    }

    /** The scan is at the end exactly when it has seen every entry. */
    lemma Before(es: seq<DirEntry>, i: nat)
      requires Names(es) && i <= |es|
      ensures |Encode(es[..i])| < |Encode(es)| <==> i < |es|
      ensures i < |es| ==> |Encode(es[..i + 1])| <= |Encode(es)|
    {
      hide Encode, Record;
      if i < |es| {
        RecordAt(es, i);
      } else {
        assert es[..i] == es;
      }
    }

    /**
      newNode: a fresh inode of the given kind, linked into directory d; None where the kernel
      stops because no inode is left.
    */
    method NewNode(d: nat, name: seq<Byte>, kind: Word16) returns (r: Option<nat>)
      requires ValidTree() && d in dirs && Nameable(name)
      requires Vol().inodes[d].size + 8 + |name| <= SPAN
      requires Enough(Vol(), d, Vol().inodes[d].size / BLOCK, Stop(Vol().inodes[d].size, 8 + |name|))
      modifies this`own, this`dirs, device.disk
      ensures ValidTree()
      ensures r == None <==> forall k :: 0 <= k < COUNT ==> old(Vol()).used[k]
      ensures r == None ==> Vol() == old(Vol()) && dirs == old(dirs)
      ensures r.Some? ==> r.value < COUNT && !old(Vol()).used[r.value] && Vol().used == old(Vol()).used[r.value := true]
      ensures r.Some? ==>
        dirs == (if kind == DIR_TYPE then old(dirs)[r.value := []] else old(dirs))
                  [d := old(dirs)[d] + [DirEntry(r.value, name)]]
      ensures r.Some? ==>
        Vol().inodes[r.value].kind == kind && Vol().inodes[r.value].links == 1 && File(Vol(), r.value) == []
      ensures r.Some? ==> forall k :: 0 <= k < COUNT && old(Vol()).used[k] ==>
        CountedOnce(old(Vol()).inodes[k], Vol().inodes[k], false)
      ensures Vol().root == old(Vol().root) && Vol().other == old(Vol().other)
      ensures r.Some? ==> forall k :: 0 <= k < r.value ==> old(Vol()).used[k]
      ensures r.Some? ==> forall k :: 0 <= k < COUNT && old(Vol()).used[k] && k != d ==>
        File(Vol(), k) == old(File(Vol(), k))
      ensures r.Some? && First(old(dirs)[d], name) == None ==> First(dirs[d], name) == r
    {
      hide Decode, Ok, Enough, Tree, File, Created, First, BitAt, Entries;
      ghost var v, disk := Vol(), device.disk[..];
      DirUsed(v, dirs, d);
      UsedBits(disk);
      var idx := FindClear(INODE_MAP);
      if idx < 0 {
        return None;
      }
      InodeBitSet(disk, device.disk[..], idx);
      SetType(idx, kind);
      SetSize(idx, 0);
      SetLinks(idx, 0);
      SetDirect(idx, 0);
      SetIndirect(idx, 0);
      CreatedIs(v, Vol(), idx, kind);
      CreateKeeps(v, own, idx, kind);
      TreeCreate(v, own, dirs, idx, kind);
      CreatedFacts(v, own, d, idx, kind);
      NotDir(v, dirs, idx);
      ghost var v1 := Vol();
      dirs := if kind == DIR_TYPE then dirs[idx := []] else dirs;
      LinkNode(d, name, idx);
      FirstAppend(old(dirs)[d], DirEntry(idx, name), name);
      LinkedOnce(v, old(dirs), Vol(), dirs, d, idx, name, kind);
      return Some(idx);
    }

    lemma UsedBits(d: seq<Byte>)
      requires |d| >= END
      ensures forall k :: 0 <= k < COUNT ==> Decode(d).used[k] == BitAt(d, INODE_MAP, k)
    {
    }

    lemma CreatedIs(v: Vol, v': Vol, k: nat, kind: Word16)
      requires Sized(v) && k < COUNT
      requires v' == v.(used := v.used[k := true], inodes := v'.inodes)
      requires v'.inodes == v.inodes[k := Inode(kind, 0, 0, 0, 0)]
      ensures v' == Created(v, k, kind)
    {
    }

    /** The new inode does not disturb the plan for directory d. */
    lemma CreatedFacts(v: Vol, own: Owners, d: nat, k: nat, kind: Word16)
      requires Ok(v, own) && k < COUNT && !v.used[k] && d < COUNT && v.used[d]
      ensures var v' := Created(v, k, kind);
        && v'.inodes[d] == v.inodes[d] && v'.used == v.used[k := true]
        && (forall lo, hi :: Enough(v, d, lo, hi) ==> Enough(v', d, lo, hi))
        && (forall j :: 0 <= j < COUNT && v.used[j] ==> File(v', j) == File(v, j))
        && File(v', k) == []
    {
      hide Owned, Ptr, Free, File, ByteAt;
      var v' := Created(v, k, kind);
      CreateKeeps(v, own, k, kind);
      forall lo: nat, hi: nat | Enough(v, d, lo, hi) ensures Enough(v', d, lo, hi) {
        assert Live(v, Indirect(d));
        forall i | lo <= i < hi ensures Ptr(v', SlotOf(d, i)) == Ptr(v, SlotOf(d, i)) {
          assert Live(v, SlotOf(d, i));
        }
        HolesSame(v, v', d, lo, hi);
      }
      forall j | 0 <= j < COUNT && v.used[j] ensures File(v', j) == File(v, j) {
        SameBytes(v, v', j);
      }
    }

    lemma NotDir(v: Vol, dirs: Dirs, k: nat)
      requires Sized(v) && Tree(v, dirs) && k < COUNT && !v.used[k]
      ensures k !in dirs && v.root != k
    {
    }

    /** The new inode has the one entry that names it. */
    lemma LinkedOnce(v: Vol, dirs: Dirs, v': Vol, dirs': Dirs, d: nat, k: nat, name: seq<Byte>, kind: Word16)
      requires Sized(v) && Sized(v') && Tree(v, dirs) && Tree(v', dirs') && k < COUNT && !v.used[k] && v'.used[k]
      requires d in dirs
      requires dirs' == (if kind == DIR_TYPE then dirs[k := []] else dirs)[d := dirs[d] + [DirEntry(k, name)]]
      requires v'.root == v.root
      ensures v'.inodes[k].links == 1
    {
      hide Entries, Encode, File;
      NotDir(v, dirs, k);
      var dirs1 := if kind == DIR_TYPE then dirs[k := []] else dirs;
      if kind == DIR_TYPE { EntriesNew(dirs, k, k); }
      EntriesUnused(dirs, v.used, k);
      EntriesAppend(dirs1, d, DirEntry(k, name), k);
    }

    // ---- mkfs

    /** Bitmap::set */
    method MarkBit(base: nat, k: nat)
      requires Mounted() && base + 1024 <= END && base % 4 == 0 && k < COUNT
      modifies device.disk
      ensures BitWritten(old(device.disk[..]), device.disk[..], base, k)
    {
      hide Bit, SetBit, Patch, Word;
      var word := ReadWord(base + k / 32 * 4);
      SetBitWord(word, k % 32);
      WriteWord(base + k / 32 * 4, SetBit(word, k % 32));
    }

    /** Bitmap::clear of the whole map */
    method ClearMap(base: nat)
      requires Mounted() && (base == DATA_MAP || base == INODE_MAP)
      modifies device.disk
      ensures var v, none := old(Vol()), seq(COUNT, _ => false);
        Vol() == if base == DATA_MAP then v.(taken := none) else v.(used := none)
    {
      hide Decode, Patch;
      MapCleared(device.disk[..], base);
      var n := device.WriteAll(base, Zeros(BLOCK));
    }

    /** The superblock and the bitmaps of mkfs */
    method Format(root: Word32)
      requires Mounted() && root < COUNT
      modifies device.disk
      ensures var v, none := old(Vol()), seq(COUNT, _ => false);
        Vol() == v.(root := root, used := none[root := true], taken := none,
                    other := SIGNATURE + Zeros(1012) + old(device.disk[END..]))
    {
      hide Decode, Patch, BitWritten;
      var magic := SIGNATURE;
      SuperWritten(device.disk[..], magic, root);
      var n := device.WriteAll(0, Zeros(BLOCK));
      n := device.WriteAll(0, magic);
      WriteWord(8, root);
      ClearMap(INODE_MAP);
      ghost var d := device.disk[..];
      MarkBit(INODE_MAP, root);
      InodeBitSet(d, device.disk[..], root);
      ClearMap(DATA_MAP);
    }

    /** mkfs: whatever was on the disk, it now holds one empty directory. */
    constructor Mkfs(device: Ide)
      requires device.Valid() && device.disk.Length >= END
      modifies device.disk
      ensures this.device == device && ValidTree() && dirs == map[42 := []]
      ensures Vol().root == 42 && Vol().used == seq(COUNT, _ => false)[42 := true]
      ensures Free(Vol()) == COUNT && File(Vol(), 42) == []
      ensures Vol().inodes[42] == Inode(1, 1, 0, 0, 0)
      ensures Vol().other == SIGNATURE + Zeros(1012) + old(device.disk[END..])
    {
      this.device := device;
      new;
      MakeRoot(42);
    }

    method MakeRoot(root: Word32)
      requires Mounted() && root < COUNT
      modifies this`own, this`dirs, device.disk
      ensures ValidTree() && dirs == map[root := []]
      ensures Vol().root == root && Vol().used == seq(COUNT, _ => false)[root := true]
      ensures Free(Vol()) == COUNT && File(Vol(), root) == []
      ensures Vol().inodes[root] == Inode(1, 1, 0, 0, 0)
      ensures Vol().other == SIGNATURE + Zeros(1012) + old(device.disk[END..])
    {
      hide Decode, Ok, Tree, Blank, Free, File;
      ghost var v := Vol();
      Format(root);
      SetType(root, DIR_TYPE);
      SetSize(root, 0);
      SetLinks(root, 1);
      SetDirect(root, 0);
      SetIndirect(root, 0);
      ghost var v1 := v.(other := Vol().other);
      BlankIs(v1, Vol(), root);
      BlankOk(v1, root);
      TreeBlank(v1, root);
      BlankFree(v1, root);
      own, dirs := seq(COUNT, _ => None), map[root := []];
    }

    lemma BlankIs(v: Vol, v': Vol, root: Word32)
      requires Sized(v) && root < COUNT
      requires v' == v.(root := root, inodes := v.inodes[root := Inode(1, 1, 0, 0, 0)],
                        used := seq(COUNT, _ => false)[root := true], taken := seq(COUNT, _ => false))
      ensures v' == Blank(v, root)
      ensures v'.root == root && v'.used == seq(COUNT, _ => false)[root := true]
      ensures v'.inodes[root] == Inode(1, 1, 0, 0, 0)
    {
    }

    lemma BlankFree(v: Vol, root: nat)
      requires Sized(v) && root < COUNT
      ensures Free(Blank(v, root)) == COUNT
    {
      AllFree(Clear(Blank(v, root).taken));
    }

    lemma {:induction false} AllFree(w: seq<nat>)
      requires forall b :: 0 <= b < |w| ==> w[b] == 1
      ensures Tallies.Total(w) == |w|
      decreases |w|
    {
      if w != [] { AllFree(w[..|w| - 1]); }
    }

    // ---- what they rely on

    lemma WritesHere(v: Vol, own: Owners, k: nat, i: nat, start: nat, c: seq<Byte>)
      requires Ok(v, own) && k < COUNT && v.used[k] && i <= ENTRIES && Ptr(v, SlotOf(k, i)) != 0 && start + |c| <= BLOCK
      ensures Writes(v, own, k, i, start, c)
    {
      hide Ptr, Owned, Files;
      OwnerOf(v, own, SlotOf(k, i));
    }

    lemma BlockBytesAt(d: seq<Byte>, n: nat, start: nat, c: seq<Byte>, m: nat)
      requires |d| >= END && IsBlock(n) && start + |c| <= BLOCK && m <= |c|
      ensures n * BLOCK + start + |c| <= END
      ensures var v, v' := Decode(d), Decode(Patch(d, n * BLOCK + start, c[..m]));
        v' == v.(data := v.data[n - FIRST := Patch(v.data[n - FIRST], start, c[..m])])
    {
      hide Decode, Patch;
      BlockBytes(d, n - FIRST, start, c[..m]);
    }

    lemma WrittenIs(v1: Vol, v2: Vol, v3: Vol, k: nat, i: nat, start: nat, c: seq<Byte>)
      requires Sized(v1) && k < COUNT && i <= ENTRIES && IsBlock(Ptr(v1, SlotOf(k, i))) && start + |c| <= BLOCK
      requires var b := Ptr(v1, SlotOf(k, i)) - FIRST; v2 == v1.(data := v1.data[b := Patch(v1.data[b], start, c)])
      requires v3 == if i * BLOCK + start + |c| > v2.inodes[k].size
        then v2.(inodes := v2.inodes[k := v2.inodes[k].(size := i * BLOCK + start + |c|)]) else v2
      ensures v3 == Written(v1, k, i, start, c)
    {
      hide Ptr, Patch;
      assert v1.inodes[k := v1.inodes[k].(size := v1.inodes[k].size)] == v1.inodes;
    }

    lemma SizeFits(v: Vol, own1: Owners, k: nat, own: Owners)
      requires Ok(v, own) && k < COUNT && v.used[k]
      ensures Sized(v) && v.inodes[k].size <= SPAN
    {
    }

    lemma EnoughWritten(v: Vol, own: Owners, k: nat, i: nat, start: nat, c: seq<Byte>, lo: nat, hi: nat)
      requires Writes(v, own, k, i, start, c) && Enough(v, k, lo, hi)
      ensures Enough(Written(v, k, i, start, c), k, lo, hi)
    {
      hide Ptr, Owned, Files, Free, Needs;
      NeedsWritten(v, own, k, i, start, c, lo, hi);
    }

    lemma RewroteUsed(v: Vol, v': Vol, k: nat, off: nat, c: seq<Byte>)
      requires Rewrote(v, v', k, off, c)
      ensures v'.used == v.used
    {
    }

    lemma QuietUsed(v: Vol, v': Vol)
      requires Quiet(v, v')
      ensures v'.used == v.used
    {
    }

    lemma SizeKept(v: Vol, v': Vol, k: nat, i: nat)
      requires Reached(v, v', k, i)
      ensures v'.inodes[k].size == v.inodes[k].size && v'.used == v.used && IsBlock(Ptr(v', SlotOf(k, i)))
    {
    }

    lemma ReadIs(d: seq<Byte>, v: Vol, k: nat, off: nat, n: nat, r: seq<Byte>)
      requires |d| >= END && Sized(v) && Quiet(v, Decode(d)) && k < COUNT && v.used[k] && v.inodes[k].size <= SPAN
      requires IsBlock(n) && Ptr(Decode(d), SlotOf(k, off / BLOCK)) == n && off + |r| <= v.inodes[k].size
      requires off % BLOCK + |r| <= BLOCK && r == d[n * BLOCK + off % BLOCK..n * BLOCK + off % BLOCK + |r|]
      ensures r == File(v, k)[off..off + |r|]
    {
      hide Decode, Ptr, Quiet;
      var v1, f := Decode(d), File(v, k)[off..off + |r|];
      BlockReads(d, n - FIRST, off % BLOCK, |r|);
      var start, c := off % BLOCK, v1.data[n - FIRST];
      assert r == c[start..start + |r|];
      forall x | 0 <= x < |r| ensures r[x] == f[x] {
        SameBlock(off, x);
        QuietByte(v, v1, k, off + x);
        assert f[x] == ByteAt(v, k, off + x) == ByteAt(v1, k, off + x) == c[start + x];
        assert c[start..start + |r|][x] == c[start + x];
      }
    }

    lemma SameBlock(off: nat, x: nat)
      requires off % BLOCK + x < BLOCK
      ensures (off + x) / BLOCK == off / BLOCK && (off + x) % BLOCK == off % BLOCK + x
    {
    }

    lemma QuietByte(v: Vol, v': Vol, k: nat, o: nat)
      requires Quiet(v, v') && k < COUNT && v.used[k] && o < SPAN
      ensures ByteAt(v', k, o) == ByteAt(v, k, o)
    {
      hide ByteAt;
      assert SameFile(v, v', k);
    }

    // ---- what the branches above rely on

    lemma QuietSelf(v: Vol, own: Owners)
      requires Ok(v, own)
      ensures Quiet(v, v) && Sized(v) && Owned(v, own)
    {
    }

    lemma DirectFacts(v: Vol, own: Owners, k: nat)
      requires Ok(v, own) && k < COUNT && v.used[k]
      ensures Ptr(v, Direct(k)) == v.inodes[k].direct
      ensures Needs(v, k, 0, 1) == if v.inodes[k].direct == 0 then 1 else 0
      ensures v.inodes[k].direct != 0 ==> Reached(v, v, k, 0)
    {
      hide Owned, Files, Free;
      OneHole(v, k, 0);
      if v.inodes[k].direct != 0 { ReachedAlready(v, own, k, 0); }
    }

    lemma ClaimsDirect(v: Vol, own: Owners, b: nat, k: nat)
      requires Ok(v, own) && k < COUNT && v.used[k] && v.inodes[k].direct == 0 && b < COUNT && !v.taken[b]
      ensures Claims(v, own, b, Direct(k)) && |own| == COUNT && SlotOf(k, 0) == Direct(k)
      ensures Ptr(Claimed(v, b, Direct(k)), Direct(k)) == FIRST + b
    {
      hide Owned, Files;
      OwnLength(v, own);
      ClaimPtr(v, own, b, Direct(k), Direct(k));
    }

    lemma OwnLength(v: Vol, own: Owners)
      requires Sized(v) && Owned(v, own)
      ensures |own| == COUNT
    {
    }

    /** setDirect(0) where it was 0 */
    lemma SameDirect(v: Vol, k: nat)
      requires Sized(v) && k < COUNT
      ensures v.inodes[k].direct == 0 ==> v.(inodes := v.inodes[k := v.inodes[k].(direct := 0)]) == v
    {
    }

    lemma IndirectFacts(v: Vol, own: Owners, k: nat, i: nat)
      requires Ok(v, own) && k < COUNT && v.used[k] && 0 < i <= ENTRIES
      ensures v.inodes[k].indirect == 0 ==> Needs(v, k, i, i + 1) == 2
    {
      hide Owned, Files;
      OneHole(v, k, i);
    }

    lemma ClaimsIndirect(v: Vol, own: Owners, b: nat, k: nat)
      requires Ok(v, own) && k < COUNT && v.used[k] && v.inodes[k].indirect == 0 && b < COUNT && !v.taken[b]
      ensures Claims(v, own, b, Indirect(k)) && |own| == COUNT
    {
      hide Owned, Files;
      OwnLength(v, own);
    }

    lemma TwoFacts(v: Vol, own: Owners, b: nat, v2: Vol, k: nat, i: nat, n: nat)
      requires Ok(v, own) && Claims(v, own, b, Indirect(k)) && k < COUNT && v.used[k] && 0 < i <= ENTRIES
      requires n != 0 ==> Reached(Claimed(v, b, Indirect(k)), v2, k, i)
      requires n == 0 <==> Free(Claimed(v, b, Indirect(k))) < Needs(Claimed(v, b, Indirect(k)), k, i, i + 1)
      ensures n != 0 ==> Reached(v, v2, k, i)
      ensures n == 0 <==> Free(v) < Needs(v, k, i, i + 1)
    {
      hide Owned, Files, Free, Claims, Reached, Ptr;
      ClaimFree(v, own, b, Indirect(k));
      TwoNeeds(v, own, b, k, i);
      if n != 0 { ReachedTwo(v, own, b, v2, k, i); }
    }

    lemma TwoNeeds(v: Vol, own: Owners, b: nat, k: nat, i: nat)
      requires Claims(v, own, b, Indirect(k)) && k < COUNT && v.used[k] && 0 < i <= ENTRIES
      ensures Needs(v, k, i, i + 1) == 2 && Needs(Claimed(v, b, Indirect(k)), k, i, i + 1) == 1
    {
      hide Owned, Ptr;
      EmptyEntry(v, k, i);
      OneHole(v, k, i);
      OneHole(Claimed(v, b, Indirect(k)), k, i);
      ClaimPtr(v, own, b, Indirect(k), SlotOf(k, i));
      ClaimPtr(v, own, b, Indirect(k), Indirect(k));
    }

    lemma EntryFacts(v: Vol, own: Owners, k: nat, i: nat)
      requires Ok(v, own) && k < COUNT && v.used[k] && 0 < i <= ENTRIES && v.inodes[k].indirect != 0
      ensures IsBlock(v.inodes[k].indirect)
      ensures Ptr(v, SlotOf(k, i)) == Word(v.data[v.inodes[k].indirect - FIRST], 4 * (i - 1))
      ensures Needs(v, k, i, i + 1) == if Ptr(v, SlotOf(k, i)) == 0 then 1 else 0
      ensures Ptr(v, SlotOf(k, i)) != 0 ==> Reached(v, v, k, i)
    {
      hide Files, Free, Word, Owned;
      OneHole(v, k, i);
      OwnerOf(v, own, Indirect(k));
      if Ptr(v, SlotOf(k, i)) != 0 { ReachedAlready(v, own, k, i); }
    }

    lemma ClaimsEntry(v: Vol, own: Owners, b: nat, k: nat, i: nat)
      requires Ok(v, own) && k < COUNT && v.used[k] && 0 < i <= ENTRIES && b < COUNT && !v.taken[b]
      requires v.inodes[k].indirect != 0 && Ptr(v, SlotOf(k, i)) == 0
      ensures Claims(v, own, b, SlotOf(k, i)) && |own| == COUNT && SlotOf(k, i) == Entry(k, i - 1)
      ensures Ptr(Claimed(v, b, SlotOf(k, i)), SlotOf(k, i)) == FIRST + b
      ensures v.inodes[k].indirect != FIRST + b
    {
      hide Owned, Files;
      OwnLength(v, own);
      OwnerOf(v, own, Indirect(k));
      ClaimPtr(v, own, b, SlotOf(k, i), SlotOf(k, i));
    }

    /** Writing 0 over 0 */
    lemma SameEntry(v: Vol, b: nat, j: nat)
      requires Sized(v) && b < COUNT && j < ENTRIES
      ensures Word(v.data[b], 4 * j) == 0 ==> v.(data := v.data[b := Patch(v.data[b], 4 * j, Bytes(0))]) == v
    {
      if Word(v.data[b], 4 * j) == 0 {
        assert v.data[b][4 * j] == 0 && v.data[b][4 * j + 1] == 0;
        assert v.data[b][4 * j + 2] == 0 && v.data[b][4 * j + 3] == 0;
        assert Patch(v.data[b], 4 * j, Bytes(0)) == v.data[b];
        assert v.data[b := v.data[b]] == v.data;
      }
    }

    lemma TakenBits(d: seq<Byte>)
      requires |d| >= END
      ensures forall b :: 0 <= b < COUNT ==> Decode(d).taken[b] == BitAt(d, DATA_MAP, b)
    {
    }

    lemma ZeroBlock(b: seq<Byte>)
      requires |b| == BLOCK
      ensures Patch(b, 0, Zeros(BLOCK)) == Zeros(BLOCK)
    {
    }
  }
}
