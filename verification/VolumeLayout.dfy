/**
  Where a BobFS volume lies on the disk (kernel/bobfs.cc, the BobFS and Node constructors): block
  0 with the root inumber at byte 8, the two bitmaps, 16 bytes an inode, then the data blocks.
*/
module VolumeLayout {
  import opened IdeDisk
  import opened Volume

  const DATA_MAP: nat := 1024       // dataBitmapBase
  const INODE_MAP: nat := 2048      // inodeBitmapBase
  const INODES: nat := 3072         // inodeBase
  const DATA: nat := 131 * 1024     // dataBase
  const END: nat := 131 * 1024 + 8192 * 1024

  // ---- bits of a word

  function Pow2(j: nat): (p: nat)
    ensures p >= 1
  {
    if j == 0 then 1 else 2 * Pow2(j - 1)
  }

  /** (w & (1 << j)) != 0 */
  predicate Bit(w: nat, j: nat) { if j == 0 then w % 2 == 1 else Bit(w / 2, j - 1) }

  /** w | (1 << j) */
  function SetBit(w: nat, j: nat): nat { if Bit(w, j) then w else w + Pow2(j) }

  lemma {:induction false} SetBitBits(w: nat, j: nat, k: nat)
    ensures Bit(SetBit(w, j), k) <==> k == j || Bit(w, k)
    decreases j
  {
    if !Bit(w, j) {
      if j > 0 {
        if k > 0 { SetBitBits(w / 2, j - 1, k - 1); }
        assert (w + 2 * Pow2(j - 1)) / 2 == w / 2 + Pow2(j - 1);
      }
    }
  }

  lemma {:induction false} SetBitBound(w: nat, j: nat, n: nat)
    requires j < n && w < Pow2(n)
    ensures SetBit(w, j) < Pow2(n)
    decreases n
  {
    if !Bit(w, j) && j > 0 {
      var h, p, q := w / 2, Pow2(j - 1), Pow2(n - 1);
      assert Pow2(n) == 2 * q && Pow2(j) == 2 * p && w <= 2 * h + 1;
      SetBitBound(h, j - 1, n - 1);
      assert h + p < q;
    }
  }

  /** An n-bit number with all bits set is the largest. */
  lemma {:induction false} OnlyOnes(w: nat, n: nat)
    requires w < Pow2(n) && forall j :: 0 <= j < n ==> Bit(w, j)
    ensures w == Pow2(n) - 1
    decreases n
  {
    if n > 0 {
      assert Bit(w, 0);
      forall j | 0 <= j < n - 1 ensures Bit(w / 2, j) { assert Bit(w, j + 1); }
      OnlyOnes(w / 2, n - 1);
    }
  }

  lemma {:induction false} OnesBits(n: nat, j: nat)
    requires j < n
    ensures Bit(Pow2(n) - 1, j)
    decreases n
  {
    if j > 0 {
      OnesBits(n - 1, j - 1);
      assert (Pow2(n) - 1) / 2 == Pow2(n - 1) - 1;
    }
  }

  lemma Pow32()
    ensures Pow2(32) == 0x1_0000_0000
  {
    assert Pow2(8) == 0x100;
    assert Pow2(16) == 0x1_0000;
    assert Pow2(24) == 0x100_0000;
  }

  // ---- the volume that the bytes of a disk hold

  predicate BitAt(d: seq<Byte>, base: nat, k: nat)
    requires base + 1024 <= |d| && k < COUNT
  {
    Bit(Word(d, base + k / 32 * 4), k % 32)
  }

  function Half(b: seq<Byte>, i: nat): Word16
    requires i + 2 <= |b|
  {
    var (b0: nat, b1: nat) := (b[i], b[i + 1]);
    b0 + 0x100 * b1
  }

  function HalfBytes(x: Word16): (b: seq<Byte>)
    ensures |b| == 2 && Half(b, 0) == x
  {
    [x % 0x100, x / 0x100]
  }

  function InodeAt(d: seq<Byte>, k: nat): Inode
    requires |d| >= END && k < COUNT
  {
    var o := INODES + 16 * k;
    Inode(Half(d, o), Half(d, o + 2), Word(d, o + 4), Word(d, o + 8), Word(d, o + 12))
  }

  function BlockAt(d: seq<Byte>, b: nat): (r: seq<Byte>)
    requires |d| >= END && b < COUNT
    ensures |r| == BLOCK
  {
    d[DATA + b * BLOCK..DATA + (b + 1) * BLOCK]
  }

  function Decode(d: seq<Byte>): (v: Vol)
    requires |d| >= END
    ensures Sized(v)
  {
    Vol(Word(d, 8),
        seq(COUNT, (k: nat) requires k < COUNT => InodeAt(d, k)),
        seq(COUNT, (k: nat) requires k < COUNT => BitAt(d, INODE_MAP, k)),
        seq(COUNT, (b: nat) requires b < COUNT => BitAt(d, DATA_MAP, b)),
        seq(COUNT, (b: nat) requires b < COUNT => BlockAt(d, b)),
        Others(d))
  }

  /** The signature and the unused bytes of block 0, and what lies beyond the last block. */
  function Others(d: seq<Byte>): seq<Byte>
    requires |d| >= END
  {
    d[..8] + d[12..1024] + d[END..]
  }

  lemma SameOthers(d: seq<Byte>, d': seq<Byte>, lo: nat, hi: nat)
    requires |d| >= END && Within(d, d', lo, hi) && 1024 <= lo && hi <= END
    ensures Others(d') == Others(d)
  {
    assert d'[..8] == d[..8] && d'[12..1024] == d[12..1024] && d'[END..] == d[END..];
  }

  /** A change of bytes lo..hi only. */
  ghost predicate Within(d: seq<Byte>, d': seq<Byte>, lo: nat, hi: nat) {
    && |d'| == |d|
    && forall i :: 0 <= i < |d| && !(lo <= i < hi) ==> d'[i] == d[i]
  }

  lemma PatchWithin(d: seq<Byte>, o: nat, b: seq<Byte>)
    requires o + |b| <= |d|
    ensures Within(d, Patch(d, o, b), o, o + |b|)
  {
  }

  lemma SameBits(d: seq<Byte>, d': seq<Byte>, lo: nat, hi: nat, base: nat)
    requires |d| >= END && Within(d, d', lo, hi) && base + 1024 <= END && (hi <= base || base + 1024 <= lo)
    ensures forall k :: 0 <= k < COUNT ==> BitAt(d', base, k) == BitAt(d, base, k)
  {
    hide Bit;
    forall k | 0 <= k < COUNT ensures BitAt(d', base, k) == BitAt(d, base, k) {
      assert base + k / 32 * 4 + 4 <= base + 1024;
      SameWord(d, d', lo, hi, base + k / 32 * 4);
    }
  }

  lemma SameWord(d: seq<Byte>, d': seq<Byte>, lo: nat, hi: nat, o: nat)
    requires Within(d, d', lo, hi) && o + 4 <= |d| && (hi <= o || o + 4 <= lo)
    ensures Word(d', o) == Word(d, o)
  {
  }

  lemma SameInode(d: seq<Byte>, d': seq<Byte>, lo: nat, hi: nat, k: nat)
    requires |d| >= END && Within(d, d', lo, hi) && k < COUNT
    requires hi <= INODES + 16 * k || INODES + 16 * k + 16 <= lo
    ensures InodeAt(d', k) == InodeAt(d, k)
  {
  }

  lemma SameBlock(d: seq<Byte>, d': seq<Byte>, lo: nat, hi: nat, b: nat)
    requires |d| >= END && Within(d, d', lo, hi) && b < COUNT
    requires hi <= DATA + b * BLOCK || DATA + (b + 1) * BLOCK <= lo
    ensures BlockAt(d', b) == BlockAt(d, b)
  {
  }

  /** A change inside inode k: only that inode is decoded anew. */
  lemma InodeChange(d: seq<Byte>, d': seq<Byte>, k: nat)
    requires |d'| == |d| >= END && k < COUNT && Within(d, d', INODES + 16 * k, INODES + 16 * k + 16)
    ensures Decode(d') == Decode(d).(inodes := Decode(d).inodes[k := InodeAt(d', k)])
  {
    hide Word, InodeAt, BlockAt, BitAt, Within, Others;
    var lo, hi := INODES + 16 * k, INODES + 16 * k + 16;
    SameBits(d, d', lo, hi, INODE_MAP);
    SameBits(d, d', lo, hi, DATA_MAP);
    SameWord(d, d', lo, hi, 8);
    SameOthers(d, d', lo, hi);
    forall j | 0 <= j < COUNT && j != k ensures InodeAt(d', j) == InodeAt(d, j) { SameInode(d, d', lo, hi, j); }
    forall b | 0 <= b < COUNT ensures BlockAt(d', b) == BlockAt(d, b) { SameBlock(d, d', lo, hi, b); }
  }

  /** A change inside data block b. */
  lemma BlockChange(d: seq<Byte>, d': seq<Byte>, b: nat)
    requires |d'| == |d| >= END && b < COUNT && Within(d, d', DATA + b * BLOCK, DATA + (b + 1) * BLOCK)
    ensures Decode(d') == Decode(d).(data := Decode(d).data[b := BlockAt(d', b)])
  {
    hide Word, InodeAt, BlockAt, BitAt, Within, Others;
    var lo, hi := DATA + b * BLOCK, DATA + (b + 1) * BLOCK;
    SameBits(d, d', lo, hi, INODE_MAP);
    SameBits(d, d', lo, hi, DATA_MAP);
    SameWord(d, d', lo, hi, 8);
    SameOthers(d, d', lo, hi);
    forall j | 0 <= j < COUNT ensures InodeAt(d', j) == InodeAt(d, j) { SameInode(d, d', lo, hi, j); }
    forall c | 0 <= c < COUNT && c != b ensures BlockAt(d', c) == BlockAt(d, c) { SameBlock(d, d', lo, hi, c); }
  }

  /** Bit k of the bitmap at base is set by rewriting its word. */
  ghost predicate BitWritten(d: seq<Byte>, d': seq<Byte>, base: nat, k: nat) {
    && base + 1024 <= |d| && k < COUNT
    && var o := base + k / 32 * 4;
    && SetBit(Word(d, o), k % 32) < 0x1_0000_0000
    && d' == Patch(d, o, Bytes(SetBit(Word(d, o), k % 32)))
  }

  lemma BitSet(d: seq<Byte>, d': seq<Byte>, base: nat, k: nat)
    requires base % 4 == 0 && BitWritten(d, d', base, k)
    ensures forall j :: 0 <= j < COUNT ==> (BitAt(d', base, j) <==> j == k || BitAt(d, base, j))
  {
    hide Bit, Word, Bytes, SetBit, Patch;
    var w := Word(d, base + k / 32 * 4);
    forall j | 0 <= j < COUNT ensures BitAt(d', base, j) <==> j == k || BitAt(d, base, j) {
      WordPatch(d, base + k / 32 * 4, SetBit(w, k % 32), base + j / 32 * 4);
      SetBitBits(w, k % 32, j % 32);
    }
  }

  lemma SetBitWord(w: Word32, j: nat)
    requires j < 32
    ensures SetBit(w, j) < 0x1_0000_0000
  {
    Pow32();
    SetBitBound(w, j, 32);
  }

  lemma DataBitSet(d: seq<Byte>, d': seq<Byte>, k: nat)
    requires |d| >= END && k < COUNT && BitWritten(d, d', DATA_MAP, k)
    ensures Decode(d') == Decode(d).(taken := Decode(d).taken[k := true])
  {
    hide Word, InodeAt, BlockAt, BitAt, Within, Bytes, SetBit, Patch, Others;
    var lo := DATA_MAP + k / 32 * 4;
    PatchWithin(d, lo, Bytes(SetBit(Word(d, lo), k % 32)));
    BitSet(d, d', DATA_MAP, k);
    SameBits(d, d', lo, lo + 4, INODE_MAP);
    SameWord(d, d', lo, lo + 4, 8);
    SameOthers(d, d', lo, lo + 4);
    forall j | 0 <= j < COUNT ensures InodeAt(d', j) == InodeAt(d, j) { SameInode(d, d', lo, lo + 4, j); }
    forall b | 0 <= b < COUNT ensures BlockAt(d', b) == BlockAt(d, b) { SameBlock(d, d', lo, lo + 4, b); }
  }

  lemma InodeBitSet(d: seq<Byte>, d': seq<Byte>, k: nat)
    requires |d| >= END && k < COUNT && BitWritten(d, d', INODE_MAP, k)
    ensures Decode(d') == Decode(d).(used := Decode(d).used[k := true])
  {
    hide Word, InodeAt, BlockAt, BitAt, Within, Bytes, SetBit, Patch, Others;
    var lo := INODE_MAP + k / 32 * 4;
    PatchWithin(d, lo, Bytes(SetBit(Word(d, lo), k % 32)));
    BitSet(d, d', INODE_MAP, k);
    SameBits(d, d', lo, lo + 4, DATA_MAP);
    SameWord(d, d', lo, lo + 4, 8);
    SameOthers(d, d', lo, lo + 4);
    forall j | 0 <= j < COUNT ensures InodeAt(d', j) == InodeAt(d, j) { SameInode(d, d', lo, lo + 4, j); }
    forall b | 0 <= b < COUNT ensures BlockAt(d', b) == BlockAt(d, b) { SameBlock(d, d', lo, lo + 4, b); }
  }

  // ---- one field of an inode is rewritten

  lemma HalfPatch(b: seq<Byte>, i: nat, x: Word16, j: nat)
    requires i + 2 <= |b| && j + 2 <= |b| && (i == j || i + 2 <= j || j + 2 <= i)
    ensures Half(Patch(b, i, HalfBytes(x)), j) == if i == j then x else Half(b, j)
  {
    var b' := Patch(b, i, HalfBytes(x));
    if i == j {
      assert forall k :: 0 <= k < 2 ==> b'[i + k] == HalfBytes(x)[k];
      assert Half(b', i) == Half(HalfBytes(x), 0);
    }
  }

  lemma SameHalf(d: seq<Byte>, d': seq<Byte>, lo: nat, hi: nat, o: nat)
    requires Within(d, d', lo, hi) && o + 2 <= |d| && (hi <= o || o + 2 <= lo)
    ensures Half(d', o) == Half(d, o)
  {
  }

  /** A half word of inode k: its kind (f = 0) or its links (f = 2). */
  lemma InodeHalf(d: seq<Byte>, k: nat, f: nat, x: Word16)
    requires |d| >= END && k < COUNT && (f == 0 || f == 2)
    ensures var v, v' := Decode(d), Decode(Patch(d, INODES + 16 * k + f, HalfBytes(x)));
      v' == v.(inodes := v.inodes[k := if f == 0 then v.inodes[k].(kind := x) else v.inodes[k].(links := x)])
  {
    hide Word, Half, HalfBytes, Patch, Within, Decode;
    var o := INODES + 16 * k;
    var d' := Patch(d, o + f, HalfBytes(x));
    PatchWithin(d, o + f, HalfBytes(x));
    Widen(d, d', o + f, o + f + 2, o, o + 16);
    InodeChange(d, d', k);
    HalfPatch(d, o + f, x, o);
    HalfPatch(d, o + f, x, o + 2);
    SameWord(d, d', o + f, o + f + 2, o + 4);
    SameWord(d, d', o + f, o + f + 2, o + 8);
    SameWord(d, d', o + f, o + f + 2, o + 12);
    DecodedInode(d, k);
  }

  lemma DecodedInode(d: seq<Byte>, k: nat)
    requires |d| >= END && k < COUNT
    ensures Decode(d).inodes[k] == InodeAt(d, k)
  {
  }

  lemma Widen(d: seq<Byte>, d': seq<Byte>, lo: nat, hi: nat, lo': nat, hi': nat)
    requires Within(d, d', lo, hi) && lo' <= lo && hi <= hi'
    ensures Within(d, d', lo', hi')
  {
  }

  function WithField(i: Inode, f: nat, x: Word32): Inode {
    if f == 4 then i.(size := x) else if f == 8 then i.(direct := x) else i.(indirect := x)
  }

  /** A word of inode k: its size (f = 4), direct (8) or indirect (12) pointer. */
  lemma InodeWord(d: seq<Byte>, k: nat, f: nat, x: Word32)
    requires |d| >= END && k < COUNT && (f == 4 || f == 8 || f == 12)
    ensures var v, v' := Decode(d), Decode(Patch(d, INODES + 16 * k + f, Bytes(x)));
      v' == v.(inodes := v.inodes[k := WithField(v.inodes[k], f, x)])
  {
    hide Word, Half, Bytes, Patch, Within, Decode;
    var o := INODES + 16 * k;
    var d' := Patch(d, o + f, Bytes(x));
    PatchWithin(d, o + f, Bytes(x));
    Widen(d, d', o + f, o + f + 4, o, o + 16);
    InodeChange(d, d', k);
    SameHalf(d, d', o + f, o + f + 4, o);
    SameHalf(d, d', o + f, o + f + 4, o + 2);
    WordPatch(d, o + f, x, o + 4);
    WordPatch(d, o + f, x, o + 8);
    WordPatch(d, o + f, x, o + 12);
    DecodedInode(d, k);
  }

  /** Bytes inside data block b. */
  lemma BlockBytes(d: seq<Byte>, b: nat, start: nat, c: seq<Byte>)
    requires |d| >= END && b < COUNT && start + |c| <= BLOCK
    ensures var v, v' := Decode(d), Decode(Patch(d, DATA + b * BLOCK + start, c));
      v' == v.(data := v.data[b := Patch(v.data[b], start, c)])
  {
    hide Patch, Within, Decode;
    var o := DATA + b * BLOCK;
    var d' := Patch(d, o + start, c);
    PatchWithin(d, o + start, c);
    Widen(d, d', o + start, o + start + |c|, o, o + BLOCK);
    BlockChange(d, d', b);
    DecodedBlock(d, b);
    assert BlockAt(d', b) == Patch(BlockAt(d, b), start, c);
  }

  lemma DecodedBlock(d: seq<Byte>, b: nat)
    requires |d| >= END && b < COUNT
    ensures Decode(d).data[b] == BlockAt(d, b)
  {
  }

  /** What the disk holds inside data block b. */
  lemma BlockReads(d: seq<Byte>, b: nat, start: nat, n: nat)
    requires |d| >= END && b < COUNT && start + n <= BLOCK
    ensures d[DATA + b * BLOCK + start..DATA + b * BLOCK + start + n] == Decode(d).data[b][start..start + n]
  {
    hide Decode;
    DecodedBlock(d, b);
    var o := DATA + b * BLOCK + start;
    var l, r := d[o..o + n], BlockAt(d, b)[start..start + n];
    forall x | 0 <= x < n ensures l[x] == r[x] {
      assert BlockAt(d, b)[start + x] == d[o + x];
    }
    assert l == r;
  }

  lemma BlockWord(d: seq<Byte>, b: nat, j: nat)
    requires |d| >= END && b < COUNT && j < ENTRIES
    ensures Word(d, DATA + b * BLOCK + 4 * j) == Word(Decode(d).data[b], 4 * j)
  {
    hide Decode;
    DecodedBlock(d, b);
  }

  // ---- whole blocks are cleared

  lemma ZeroBits(d: seq<Byte>, base: nat)
    requires base + 1024 <= |d| && d[base..base + 1024] == Zeros(1024)
    ensures forall k :: 0 <= k < COUNT ==> !BitAt(d, base, k)
  {
    forall k | 0 <= k < COUNT ensures !BitAt(d, base, k) {
      var o := k / 32 * 4;
      assert o + 4 <= 1024;
      var z := d[base..base + 1024];
      assert forall x :: 0 <= x < 1024 ==> z[x] == d[base + x];
      assert z[o] == 0 && z[o + 1] == 0 && z[o + 2] == 0 && z[o + 3] == 0;
      assert Word(d, base + o) == 0;
      ZeroBit(k % 32);
    }
  }

  lemma {:induction false} ZeroBit(j: nat)
    ensures !Bit(0, j)
  {
    if j > 0 { ZeroBit(j - 1); }
  }

  /** A change of block 0, or of a bitmap block. */
  lemma BlockBelow(d: seq<Byte>, d': seq<Byte>, base: nat)
    requires |d'| == |d| >= END && (base == 0 || base == DATA_MAP || base == INODE_MAP)
    requires Within(d, d', base, base + 1024)
    ensures Decode(d').inodes == Decode(d).inodes && Decode(d').data == Decode(d).data
    ensures base != 0 ==> Decode(d').root == Decode(d).root
    ensures base != DATA_MAP ==> Decode(d').taken == Decode(d).taken
    ensures base != INODE_MAP ==> Decode(d').used == Decode(d).used
    ensures base != 0 ==> Decode(d').other == Decode(d).other
  {
    hide Word, InodeAt, BlockAt, BitAt, Within, Others;
    if base != 0 { SameOthers(d, d', base, base + 1024); }
    if base != 0 { SameWord(d, d', base, base + 1024, 8); }
    if base != DATA_MAP { SameBits(d, d', base, base + 1024, DATA_MAP); }
    if base != INODE_MAP { SameBits(d, d', base, base + 1024, INODE_MAP); }
    forall j | 0 <= j < COUNT ensures InodeAt(d', j) == InodeAt(d, j) { SameInode(d, d', base, base + 1024, j); }
    forall b | 0 <= b < COUNT ensures BlockAt(d', b) == BlockAt(d, b) { SameBlock(d, d', base, base + 1024, b); }
  }

  /** Bitmap::clear */
  lemma MapCleared(d: seq<Byte>, base: nat)
    requires |d| >= END && (base == DATA_MAP || base == INODE_MAP)
    ensures var v, v', none := Decode(d), Decode(Patch(d, base, Zeros(1024))), seq(COUNT, _ => false);
      v' == if base == DATA_MAP then v.(taken := none) else v.(used := none)
  {
    hide BitAt, Word, InodeAt, BlockAt;
    var d' := Patch(d, base, Zeros(1024));
    PatchWithin(d, base, Zeros(1024));
    BlockBelow(d, d', base);
    assert d'[base..base + 1024] == Zeros(1024);
    ZeroBits(d', base);
  }

  /** The superblock of mkfs: zeros, the magic, and the root inumber. */
  lemma SuperWritten(d: seq<Byte>, magic: seq<Byte>, root: Word32)
    requires |d| >= END && |magic| == 8
    ensures Decode(Patch(Patch(Patch(d, 0, Zeros(1024)), 0, magic), 8, Bytes(root)))
      == Decode(d).(root := root, other := magic + Zeros(1012) + d[END..])
  {
    hide BitAt, Word, InodeAt, BlockAt, Decode;
    var d1 := Patch(d, 0, Zeros(1024));
    var d2 := Patch(d1, 0, magic);
    var d3 := Patch(d2, 8, Bytes(root));
    assert Within(d, d3, 0, 1024);
    BlockBelow(d, d3, 0);
    WordPatch(d2, 8, root, 8);
    RootAt(d3);
    assert d3[..8] == magic && d3[12..1024] == Zeros(1012) && d3[END..] == d[END..];
  }

  lemma RootAt(d: seq<Byte>)
    requires |d| >= END
    ensures Decode(d).root == Word(d, 8) && Decode(d).other == Others(d)
  {
  }

  // ---- the layout, byte by byte

  /** The bits of r below n are those of r plus any multiple of 2^n. */
  lemma {:induction false} BitsBelow(r: nat, q: nat, n: nat, j: nat)
    requires j < n
    ensures Bit(r + Pow2(n) * q, j) <==> Bit(r, j)
    decreases n
  {
    var t := Pow2(n - 1) * q;
    assert Pow2(n) * q == 2 * t;
    assert (r + 2 * t) / 2 == r / 2 + t;
    if j > 0 { BitsBelow(r / 2, q, n - 1, j - 1); }
  }

  lemma {:induction false} BitsAbove(r: nat, q: nat, n: nat, j: nat)
    requires r < Pow2(n)
    ensures Bit(r + Pow2(n) * q, n + j) <==> Bit(q, j)
    decreases n
  {
    if n > 0 {
      var t := Pow2(n - 1) * q;
      assert Pow2(n) * q == 2 * t;
      assert (r + 2 * t) / 2 == r / 2 + t;
      BitsAbove(r / 2, q, n - 1, j);
    }
  }

  /** Bit j of a little-endian word is a bit of its byte j / 8. */
  lemma WordBit(d: seq<Byte>, i: nat, j: nat)
    requires i + 4 <= |d| && j < 32
    ensures Bit(Word(d, i), j) <==> Bit(d[i + j / 8], j % 8)
  {
    hide Bit;
    assert Pow2(8) == 256;
    var (b0: nat, b1: nat, b2: nat, b3: nat) := (d[i], d[i + 1], d[i + 2], d[i + 3]);
    var (w1: nat, w2: nat) := (b1 + 256 * (b2 + 256 * b3), b2 + 256 * b3);
    assert Word(d, i) == b0 + 256 * w1;
    if j < 8 {
      BitsBelow(b0, w1, 8, j);
    } else {
      BitsAbove(b0, w1, 8, j - 8);
      if j < 16 {
        BitsBelow(b1, w2, 8, j - 8);
      } else {
        BitsAbove(b1, w2, 8, j - 16);
        if j < 24 { BitsBelow(b2, b3, 8, j - 16); } else { BitsAbove(b2, b3, 8, j - 24); }
      }
    }
  }

  lemma DivIs(a: nat, q: nat, r: nat, p: nat)
    requires p > 0 && a == p * q + r && r < p
    ensures a / p == q
  {
    var d := a / p - q;
    assert p * d == r - a % p;
    FarFromZero(p, d);
  }

  lemma FarFromZero(p: nat, d: int)
    ensures (d >= 1 ==> p * d >= p) && (d <= -1 ==> p * d <= 0 - p)
  {
  }

  lemma HalfFirst(w: nat, p: nat)
    requires p > 0
    ensures w / 2 / p == w / (2 * p)
  {
    var q, r := w / 2 / p, w / 2 % p;
    assert w / 2 == p * q + r && w == 2 * (p * q) + (2 * r + w % 2) && 2 * p * q == 2 * (p * q);
    DivIs(w, q, 2 * r + w % 2, 2 * p);
  }

  /** A bit, by division */
  lemma {:induction false} BitByDivision(w: nat, j: nat)
    ensures Bit(w, j) <==> w / Pow2(j) % 2 == 1
    decreases j
  {
    if j > 0 {
      BitByDivision(w / 2, j - 1);
      HalfFirst(w, Pow2(j - 1));
    }
  }

  lemma MapBit(d: seq<Byte>, base: nat, k: nat)
    requires base + 1024 <= |d| && k < COUNT
    ensures BitAt(d, base, k) <==> d[base + k / 8] / Pow2(k % 8) % 2 == 1
  {
    hide Bit, Pow2, Word;
    WordBit(d, base + k / 32 * 4, k % 32);
    assert k / 32 * 4 + k % 32 / 8 == k / 8 && k % 32 % 8 == k % 8;
    BitByDivision(d[base + k / 8], k % 8);
  }

  /** Bit b % 8 of byte 1024 + b / 8 is data block b's, and that of byte 2048 + k / 8 inode k's. */
  lemma BitmapBytes(d: seq<Byte>, k: nat)
    requires |d| >= 134144 + 8192 * 1024 && k < 8192
    ensures Decode(d).taken[k] <==> d[1024 + k / 8] / Pow2(k % 8) % 2 == 1
    ensures Decode(d).used[k] <==> d[2048 + k / 8] / Pow2(k % 8) % 2 == 1
  {
    MapBit(d, 1024, k);
    MapBit(d, 2048, k);
  }

  /** The number that bytes stand for, low byte first */
  function LowFirst(b: seq<Byte>): nat {
    if b == [] then 0
    else
      var (low: nat, high) := (b[0], LowFirst(b[1..]));
      low + 256 * high
  }

  lemma LowThenHigh(d: seq<Byte>, i: nat, n: nat)
    requires n > 0 && i + n <= |d|
    ensures var low: nat := d[i]; LowFirst(d[i..i + n]) == low + 256 * LowFirst(d[i + 1..i + n])
  {
    assert d[i..i + n][1..] == d[i + 1..i + n];
  }

  lemma WordLowFirst(d: seq<Byte>, i: nat)
    requires i + 4 <= |d|
    ensures Word(d, i) == LowFirst(d[i..i + 4])
  {
    hide LowFirst;
    LowThenHigh(d, i, 4);
    LowThenHigh(d, i + 1, 3);
    LowThenHigh(d, i + 2, 2);
    LowThenHigh(d, i + 3, 1);
    NoBytes(d[i + 4..i + 4]);
  }

  lemma HalfLowFirst(d: seq<Byte>, i: nat)
    requires i + 2 <= |d|
    ensures Half(d, i) == LowFirst(d[i..i + 2])
  {
    hide LowFirst;
    LowThenHigh(d, i, 2);
    LowThenHigh(d, i + 1, 1);
    NoBytes(d[i + 2..i + 2]);
  }

  lemma NoBytes(b: seq<Byte>)
    requires |b| == 0
    ensures LowFirst(b) == 0
  {
  }

  /** Inode k is at byte 3072 + 16 k: kind, links, size, direct and indirect block. */
  lemma InodeBytes(d: seq<Byte>, k: nat)
    requires |d| >= 134144 + 8192 * 1024 && k < 8192
    ensures var (i, o) := (Decode(d).inodes[k], 3072 + 16 * k);
      && i.kind == LowFirst(d[o..o + 2]) && i.links == LowFirst(d[o + 2..o + 4])
      && i.size == LowFirst(d[o + 4..o + 8])
      && i.direct == LowFirst(d[o + 8..o + 12]) && i.indirect == LowFirst(d[o + 12..o + 16])
  {
    hide BitAt, Word, Half, LowFirst;
    var o := 3072 + 16 * k;
    HalfLowFirst(d, o);
    HalfLowFirst(d, o + 2);
    WordLowFirst(d, o + 4);
    WordLowFirst(d, o + 8);
    WordLowFirst(d, o + 12);
  }

  /** Data block b, which pointers name 131 + b, is at byte 1024 * (131 + b); the root inumber is at byte 8. */
  lemma BlockAndRootBytes(d: seq<Byte>, b: nat)
    requires |d| >= 134144 + 8192 * 1024 && b < 8192
    ensures Decode(d).data[b] == d[1024 * (131 + b)..1024 * (131 + b) + 1024]
    ensures Decode(d).root == LowFirst(d[8..12])
    ensures Decode(d).other == d[..8] + d[12..1024] + d[134144 + 8192 * 1024..]
  {
    hide BitAt, InodeAt, Word, LowFirst;
    WordLowFirst(d, 8);
  }
}
