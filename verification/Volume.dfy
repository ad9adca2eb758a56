/**
  A BobFS volume (kernel/bobfs.h) as its inodes, bitmaps and data blocks, and what the block map
  keeps: every block pointer owns its block alone, the data bitmap shows exactly the owned
  blocks, and a file reads as zeros beyond what was written.
*/
module Volume {
  import opened IdeDisk
  import opened Options
  import opened Tallies

  const BLOCK: nat := 1024
  const COUNT: nat := 8192          // bits in a bitmap block: inodes, and data blocks
  const FIRST: nat := 131           // number of the first data block
  const ENTRIES: nat := 256         // pointers in an indirect block
  const SPAN: nat := 257 * 1024     // what one direct and 256 indirect blocks hold

  type Word32 = x: nat | x < 0x1_0000_0000
  type Word16 = x: nat | x < 0x1_0000

  datatype Inode = Inode(kind: Word16, links: Word16, size: Word32, direct: Word32, indirect: Word32)

  /** `used` and `taken` are the inode and data bitmaps; `other` is what the disk holds beside all these. */
  datatype Vol = Vol(root: Word32, inodes: seq<Inode>, used: seq<bool>, taken: seq<bool>, data: seq<seq<Byte>>,
                     other: seq<Byte>)

  /** The little-endian word at i */
  function Word(b: seq<Byte>, i: nat): Word32
    requires i + 4 <= |b|
  {
    var (b0: nat, b1: nat, b2: nat, b3: nat) := (b[i], b[i + 1], b[i + 2], b[i + 3]);
    b0 + 0x100 * b1 + 0x1_0000 * b2 + 0x100_0000 * b3
  }

  function Bytes(x: Word32): (b: seq<Byte>)
    ensures |b| == 4 && Word(b, 0) == x
  {
    Shifts(x);
    [x % 0x100, x / 0x100 % 0x100, x / 0x1_0000 % 0x100, x / 0x100_0000]
  }

  lemma Shifts(x: nat)
    ensures x / 0x1_0000 == x / 0x100 / 0x100 && x / 0x100_0000 == x / 0x1_0000 / 0x100
  {
  }

  function Zeros(n: nat): (z: seq<Byte>)
    ensures |z| == n && forall i :: 0 <= i < n ==> z[i] == 0
  {
    seq(n, _ => 0)
  }

  predicate Sized(v: Vol) {
    && |v.inodes| == |v.used| == |v.taken| == |v.data| == COUNT
    && forall b :: 0 <= b < |v.data| ==> |v.data[b]| == BLOCK
  }

  // ---- block pointers

  /** A place on the disk that can name a data block. */
  datatype Slot = Direct(k: nat) | Indirect(k: nat) | Entry(k: nat, j: nat)

  predicate IsBlock(n: nat) { FIRST <= n < FIRST + COUNT }

  /** The block number in a slot; an entry of a missing indirect block counts as 0. */
  function Ptr(v: Vol, s: Slot): nat
    requires Sized(v)
  {
    if s.k >= COUNT then 0
    else
      match s
      case Direct(k) => v.inodes[k].direct
      case Indirect(k) => v.inodes[k].indirect
      case Entry(k, j) =>
        if IsBlock(v.inodes[k].indirect) && j < ENTRIES then Word(v.data[v.inodes[k].indirect - FIRST], 4 * j) else 0
  }

  predicate Live(v: Vol, s: Slot)
    requires Sized(v)
  {
    s.k < COUNT && v.used[s.k] && (s.Entry? ==> s.j < ENTRIES)
  }

  type Owners = seq<Option<Slot>>

  /** Block FIRST + b belongs to the one slot own[b] that names it, and is marked in the bitmap. */
  ghost predicate Owned(v: Vol, own: Owners)
    requires Sized(v)
  {
    && |own| == COUNT
    && (forall s :: Live(v, s) && Ptr(v, s) != 0 ==> IsBlock(Ptr(v, s)) && own[Ptr(v, s) - FIRST] == Some(s))
    && (forall b :: 0 <= b < COUNT && own[b].Some? ==> Live(v, own[b].value) && Ptr(v, own[b].value) == FIRST + b)
    && (forall b :: 0 <= b < COUNT ==> (v.taken[b] <==> own[b].Some?))
  }

  // ---- file contents

  function SlotOf(k: nat, i: nat): Slot { if i == 0 then Direct(k) else Entry(k, i - 1) }

  /** What the file of inode k has at offset o: zero where no block is allocated. */
  function ByteAt(v: Vol, k: nat, o: nat): Byte
    requires Sized(v)
  {
    var n := Ptr(v, SlotOf(k, o / BLOCK));
    if IsBlock(n) then v.data[n - FIRST][o % BLOCK] else 0
  }

  function File(v: Vol, k: nat): seq<Byte>
    requires Sized(v) && k < COUNT
  {
    seq(v.inodes[k].size, (o: nat) => ByteAt(v, k, o))
  }

  /** Files fit in their block map, and there is nothing behind their end. */
  ghost predicate Files(v: Vol)
    requires Sized(v)
  {
    && (forall k :: 0 <= k < COUNT && v.used[k] ==> v.inodes[k].size <= SPAN)
    && (forall k, o :: 0 <= k < COUNT && v.used[k] && v.inodes[k].size <= o < SPAN ==> ByteAt(v, k, o) == 0)
  }

  ghost predicate Ok(v: Vol, own: Owners) {
    Sized(v) && Owned(v, own) && Files(v)
  }

  /** No two pointers name the same block; each names a marked data block; and marked blocks are all named. */
  lemma PointersExact(v: Vol, own: Owners)
    requires Ok(v, own)
    ensures forall s, t :: Live(v, s) && Live(v, t) && Ptr(v, s) != 0 && Ptr(v, s) == Ptr(v, t) ==> s == t
    ensures forall s :: Live(v, s) && Ptr(v, s) != 0 ==>
      FIRST <= Ptr(v, s) < FIRST + COUNT && v.taken[Ptr(v, s) - FIRST]
    ensures forall b :: 0 <= b < COUNT && v.taken[b] ==> exists s :: Live(v, s) && Ptr(v, s) == FIRST + b
  {
    hide Ptr, Owned, Live, Files;
    forall s | Live(v, s) && Ptr(v, s) != 0
      ensures FIRST <= Ptr(v, s) < FIRST + COUNT && v.taken[Ptr(v, s) - FIRST]
    {
      OwnerOf(v, own, s);
    }
    forall s, t | Live(v, s) && Live(v, t) && Ptr(v, s) != 0 && Ptr(v, s) == Ptr(v, t) ensures s == t {
      OwnerOf(v, own, s);
      OwnerOf(v, own, t);
    }
    forall b | 0 <= b < COUNT && v.taken[b] ensures exists s :: Live(v, s) && Ptr(v, s) == FIRST + b {
      var s := OwnedSlot(v, own, b);
    }
  }

  lemma OwnerOf(v: Vol, own: Owners, s: Slot)
    requires Sized(v) && Owned(v, own) && Live(v, s) && Ptr(v, s) != 0
    ensures IsBlock(Ptr(v, s)) && |own| == COUNT && own[Ptr(v, s) - FIRST] == Some(s) && v.taken[Ptr(v, s) - FIRST]
  {
    hide Ptr;
  }

  lemma OwnedSlot(v: Vol, own: Owners, b: nat) returns (s: Slot)
    requires Sized(v) && Owned(v, own) && b < COUNT && v.taken[b]
    ensures |own| == COUNT && own[b] == Some(s) && Live(v, s) && Ptr(v, s) == FIRST + b
  {
    hide Ptr;
    s := own[b].value;
  }

  // ---- a free block is given to a pointer that was 0

  /** The pointer in slot s becomes x. */
  function SetPtr(v: Vol, s: Slot, x: Word32): Vol
    requires Sized(v) && s.k < COUNT
    requires s.Entry? ==> IsBlock(v.inodes[s.k].indirect) && s.j < ENTRIES
  {
    match s
    case Direct(k) => v.(inodes := v.inodes[k := v.inodes[k].(direct := x)])
    case Indirect(k) => v.(inodes := v.inodes[k := v.inodes[k].(indirect := x)])
    case Entry(k, j) =>
      var b := v.inodes[k].indirect - FIRST;
      v.(data := v.data[b := Patch(v.data[b], 4 * j, Bytes(x))])
  }

  function Allocated(v: Vol, b: nat): Vol
    requires Sized(v) && b < COUNT
  {
    v.(taken := v.taken[b := true], data := v.data[b := Zeros(BLOCK)])
  }

  ghost predicate Claims(v: Vol, own: Owners, b: nat, s: Slot) {
    && Sized(v) && Owned(v, own) && b < COUNT && !v.taken[b] && Live(v, s) && Ptr(v, s) == 0
    && (s.Entry? ==> IsBlock(v.inodes[s.k].indirect))
  }

  function Claimed(v: Vol, b: nat, s: Slot): (v': Vol)
    requires Sized(v) && b < COUNT && s.k < COUNT
    requires s.Entry? ==> IsBlock(v.inodes[s.k].indirect) && s.j < ENTRIES
    ensures Sized(v')
  {
    SetPtr(Allocated(v, b), s, FIRST + b)
  }

  /** The other pointers stay. */
  lemma ClaimPtr(v: Vol, own: Owners, b: nat, s: Slot, t: Slot)
    requires Claims(v, own, b, s) && Live(v, t)
    ensures Ptr(Claimed(v, b, s), t) == if t == s then FIRST + b else Ptr(v, t)
  {
    hide Owned, Word, Bytes, Patch;
    var v' := Claimed(v, b, s);
    if t.Entry? && IsBlock(v.inodes[t.k].indirect) {
      OwnerOf(v, own, Indirect(t.k));
      if s.Entry? {
        OwnerOf(v, own, Indirect(s.k));
        WordPatch(v.data[v.inodes[s.k].indirect - FIRST], 4 * s.j, FIRST + b, 4 * t.j);
      }
    } else if t.Entry? && s == Indirect(t.k) {
      ZeroWord(4 * t.j);
    }
  }

  lemma ZeroWord(i: nat)
    requires i + 4 <= BLOCK
    ensures Word(Zeros(BLOCK), i) == 0
  {
  }

  lemma WordPatch(b: seq<Byte>, i: nat, x: Word32, j: nat)
    requires i + 4 <= |b| && j + 4 <= |b| && (i == j || i + 4 <= j || j + 4 <= i)
    ensures Word(Patch(b, i, Bytes(x)), j) == if i == j then x else Word(b, j)
  {
    var b' := Patch(b, i, Bytes(x));
    if i == j {
      assert forall k :: 0 <= k < 4 ==> b'[i + k] == Bytes(x)[k];
      assert Word(b', i) == Word(Bytes(x), 0);
    }
  }

  lemma ClaimShape(v: Vol, b: nat, s: Slot)
    requires Sized(v) && b < COUNT && s.k < COUNT && (s.Entry? ==> IsBlock(v.inodes[s.k].indirect) && s.j < ENTRIES)
    ensures var v' := Claimed(v, b, s); Sized(v') && v'.used == v.used && v'.taken == v.taken[b := true]
  {
  }

  lemma ClaimOwned(v: Vol, own: Owners, b: nat, s: Slot)
    requires Claims(v, own, b, s)
    ensures Owned(Claimed(v, b, s), own[b := Some(s)])
  {
    hide Ptr, Claimed, Owned;
    OwnedTaken(v, own);
    ClaimShape(v, b, s);
    var v', own' := Claimed(v, b, s), own[b := Some(s)];
    forall t | Live(v', t) && Ptr(v', t) != 0 ensures IsBlock(Ptr(v', t)) && own'[Ptr(v', t) - FIRST] == Some(t) {
      ClaimPtr(v, own, b, s, t);
      if t != s { OwnerOf(v, own, t); }
    }
    forall c | 0 <= c < COUNT && c != b ensures
      own[c].Some? ==> Live(v', own[c].value) && Ptr(v', own[c].value) == FIRST + c
    {
      OwnedHere(v, own, c);
      if own[c].Some? { ClaimPtr(v, own, b, s, own[c].value); }
    }
    ClaimPtr(v, own, b, s, s);
    assert Owned(v', own') by { OwnedIs(v', own'); }
  }

  lemma OwnedHere(v: Vol, own: Owners, c: nat)
    requires Sized(v) && Owned(v, own) && c < COUNT
    ensures |own| == COUNT && (own[c].Some? ==> Live(v, own[c].value) && Ptr(v, own[c].value) == FIRST + c)
  {
    hide Ptr;
  }

  lemma OwnedTaken(v: Vol, own: Owners)
    requires Sized(v) && Owned(v, own)
    ensures |own| == COUNT && forall c :: 0 <= c < COUNT ==> (v.taken[c] <==> own[c].Some?)
  {
    hide Ptr;
  }

  lemma OwnedIs(v: Vol, own: Owners)
    requires Sized(v) && |own| == COUNT
    requires forall s :: Live(v, s) && Ptr(v, s) != 0 ==> IsBlock(Ptr(v, s)) && own[Ptr(v, s) - FIRST] == Some(s)
    requires forall b :: 0 <= b < COUNT && own[b].Some? ==> Live(v, own[b].value) && Ptr(v, own[b].value) == FIRST + b
    requires forall b :: 0 <= b < COUNT ==> (v.taken[b] <==> own[b].Some?)
    ensures Owned(v, own)
  {
    hide Ptr;
  }

  /** A block of file contents is neither the free one nor an indirect one. */
  lemma ClaimByte(v: Vol, own: Owners, b: nat, s: Slot, k: nat, o: nat)
    requires Claims(v, own, b, s) && k < COUNT && v.used[k] && o < SPAN
    ensures ByteAt(Claimed(v, b, s), k, o) == ByteAt(v, k, o)
  {
    hide Ptr, Owned, Word, Bytes;
    var t := SlotOf(k, o / BLOCK);
    ClaimPtr(v, own, b, s, t);
    if Ptr(v, t) != 0 {
      OwnerOf(v, own, t);
    }
    if s.Entry? {
      IndirectOf(v, own, s.k);
    }
  }

  lemma IndirectOf(v: Vol, own: Owners, k: nat)
    requires Sized(v) && Owned(v, own) && k < COUNT && v.used[k] && IsBlock(v.inodes[k].indirect)
    ensures |own| == COUNT && own[v.inodes[k].indirect - FIRST] == Some(Indirect(k))
    ensures v.taken[v.inodes[k].indirect - FIRST]
  {
    OwnerOf(v, own, Indirect(k));
  }

  // ---- what an operation leaves alone

  predicate SameMeta(i: Inode, i': Inode) { i'.kind == i.kind && i'.links == i.links && i'.size == i.size }

  /** Inode k is as it was, and so are its bytes. */
  ghost predicate SameFile(v: Vol, v': Vol, k: nat)
    requires Sized(v) && Sized(v') && k < COUNT
  {
    && SameMeta(v.inodes[k], v'.inodes[k])
    && forall o :: 0 <= o < SPAN ==> ByteAt(v', k, o) == ByteAt(v, k, o)
  }

  /** No file changed. */
  ghost predicate Quiet(v: Vol, v': Vol) {
    && Sized(v) && Sized(v') && v'.root == v.root && v'.used == v.used && v'.other == v.other
    && forall k :: 0 <= k < COUNT && v.used[k] ==> SameFile(v, v', k)
  }

  lemma QuietTrans(v: Vol, v1: Vol, v2: Vol)
    requires Quiet(v, v1) && Quiet(v1, v2)
    ensures Quiet(v, v2)
  {
    hide ByteAt;
    forall k | 0 <= k < COUNT && v.used[k] ensures SameFile(v, v2, k) {
      assert SameFile(v, v1, k) && SameFile(v1, v2, k);
    }
  }

  lemma QuietFile(v: Vol, v': Vol, k: nat)
    requires Quiet(v, v') && k < COUNT && v.used[k] && v.inodes[k].size <= SPAN
    ensures File(v', k) == File(v, k)
  {
    hide ByteAt;
    assert SameFile(v, v', k);
  }

  /** Giving a free block to an empty slot keeps the invariant and changes no file. */
  lemma ClaimKeeps(v: Vol, own: Owners, b: nat, s: Slot)
    requires Ok(v, own) && Claims(v, own, b, s)
    ensures Ok(Claimed(v, b, s), own[b := Some(s)]) && Quiet(v, Claimed(v, b, s))
  {
    hide Ptr, Owned, ByteAt;
    var v' := Claimed(v, b, s);
    ClaimOwned(v, own, b, s);
    forall k, o | 0 <= k < COUNT && v.used[k] && 0 <= o < SPAN ensures ByteAt(v', k, o) == ByteAt(v, k, o) {
      ClaimByte(v, own, b, s, k, o);
    }
  }

  // ---- a write inside one block

  /** Block i of file k holds c from `start` on, and the file reaches at least that far. */
  function Written(v: Vol, k: nat, i: nat, start: nat, c: seq<Byte>): (v': Vol)
    requires Sized(v) && k < COUNT && IsBlock(Ptr(v, SlotOf(k, i))) && start + |c| <= BLOCK && i <= ENTRIES
    ensures Sized(v')
  {
    var b := Ptr(v, SlotOf(k, i)) - FIRST;
    var end: Word32 := i * BLOCK + start + |c|;
    v.(data := v.data[b := Patch(v.data[b], start, c)],
       inodes := v.inodes[k := v.inodes[k].(size := if end > v.inodes[k].size then end else v.inodes[k].size)])
  }

  ghost predicate Writes(v: Vol, own: Owners, k: nat, i: nat, start: nat, c: seq<Byte>) {
    && Ok(v, own) && k < COUNT && v.used[k] && i <= ENTRIES
    && Ptr(v, SlotOf(k, i)) != 0 && IsBlock(Ptr(v, SlotOf(k, i))) && start + |c| <= BLOCK
  }

  lemma WritePtr(v: Vol, own: Owners, k: nat, i: nat, start: nat, c: seq<Byte>, t: Slot)
    requires Writes(v, own, k, i, start, c) && Live(v, t)
    ensures Ptr(Written(v, k, i, start, c), t) == Ptr(v, t)
  {
    hide Owned, Files, Word;
    OwnerOf(v, own, SlotOf(k, i));
    if t.Entry? && IsBlock(v.inodes[t.k].indirect) {
      IndirectOf(v, own, t.k);
    }
  }

  lemma WriteByte(v: Vol, own: Owners, k: nat, i: nat, start: nat, c: seq<Byte>, k': nat, o: nat)
    requires Writes(v, own, k, i, start, c) && k' < COUNT && v.used[k'] && o < SPAN
    ensures ByteAt(Written(v, k, i, start, c), k', o) ==
      if k' == k && i * BLOCK + start <= o < i * BLOCK + start + |c|
      then c[o - i * BLOCK - start] else ByteAt(v, k', o)
  {
    hide Ptr, Owned, Files, Word;
    var t := SlotOf(k', o / BLOCK);
    WritePtr(v, own, k, i, start, c, t);
    OwnerOf(v, own, SlotOf(k, i));
    if Ptr(v, t) != 0 {
      OwnerOf(v, own, t);
    }
  }

  /** The file with c written at off; a gap before it reads as zeros. */
  function Overwrite(f: seq<Byte>, off: nat, c: seq<Byte>): (r: seq<Byte>)
  {
    seq(if off + |c| > |f| then off + |c| else |f|,
      (o: nat) => if off <= o < off + |c| then c[o - off] else if o < |f| then f[o] else 0)
  }

  lemma OverwriteTwice(f: seq<Byte>, off: nat, c: seq<Byte>, e: seq<Byte>)
    ensures Overwrite(Overwrite(f, off, c), off + |c|, e) == Overwrite(f, off, c + e)
  {
  }

  lemma OwnedSame(v: Vol, v': Vol, own: Owners)
    requires Sized(v) && Sized(v') && Owned(v, own) && v'.used == v.used && v'.taken == v.taken
    requires forall t :: Live(v, t) ==> Ptr(v', t) == Ptr(v, t)
    ensures Owned(v', own)
  {
    hide Ptr;
  }

  lemma WriteOwned(v: Vol, own: Owners, k: nat, i: nat, start: nat, c: seq<Byte>)
    requires Writes(v, own, k, i, start, c)
    ensures Owned(Written(v, k, i, start, c), own)
  {
    hide Ptr, Files, Owned;
    var v' := Written(v, k, i, start, c);
    forall t | Live(v, t) ensures Ptr(v', t) == Ptr(v, t) {
      WritePtr(v, own, k, i, start, c, t);
    }
    OwnedSame(v, v', own);
  }

  /** Everything but file k stays, and k becomes the overwritten file. */
  ghost predicate Rewrote(v: Vol, v': Vol, k: nat, off: nat, c: seq<Byte>) {
    && Sized(v) && Sized(v') && v'.root == v.root && v'.used == v.used && v'.other == v.other && k < COUNT
    && v'.inodes[k].kind == v.inodes[k].kind && v'.inodes[k].links == v.inodes[k].links
    && File(v', k) == Overwrite(File(v, k), off, c)
    && forall k' :: 0 <= k' < COUNT && k' != k && v.used[k'] ==> SameFile(v, v', k')
  }

  lemma WriteKeeps(v: Vol, own: Owners, k: nat, i: nat, start: nat, c: seq<Byte>)
    requires Writes(v, own, k, i, start, c) && |c| > 0
    ensures Ok(Written(v, k, i, start, c), own)
    ensures Rewrote(v, Written(v, k, i, start, c), k, i * BLOCK + start, c)
  {
    hide Ptr, Owned, ByteAt;
    var v' := Written(v, k, i, start, c);
    WriteOwned(v, own, k, i, start, c);
    forall k', o | 0 <= k' < COUNT && v.used[k'] && 0 <= o < SPAN
      ensures ByteAt(v', k', o) ==
        if k' == k && i * BLOCK + start <= o < i * BLOCK + start + |c|
        then c[o - i * BLOCK - start] else ByteAt(v, k', o)
    {
      WriteByte(v, own, k, i, start, c, k', o);
    }
  }

  // ---- free blocks, and how many a transfer uses up

  function Clear(taken: seq<bool>): (w: seq<nat>)
    ensures |w| == |taken| && forall b :: 0 <= b < |w| ==> w[b] == if taken[b] then 0 else 1
  {
    seq(|taken|, (b: nat) requires b < |taken| => if taken[b] then 0 else 1)
  }

  function Free(v: Vol): nat { Total(Clear(v.taken)) }

  lemma FreeTaken(v: Vol, b: nat)
    requires b < |v.taken| && !v.taken[b]
    ensures Free(v) > 0 && Free(v.(taken := v.taken[b := true])) == Free(v) - 1
  {
    TotalSet(Clear(v.taken), b, 0);
    assert Clear(v.taken[b := true]) == Clear(v.taken)[b := 0];
  }

  lemma NoFree(v: Vol)
    ensures Free(v) == 0 <==> forall b :: 0 <= b < |v.taken| ==> v.taken[b]
  {
    if Free(v) > 0 {
      var b := TotalSome(Clear(v.taken));
    } else {
      forall b | 0 <= b < |v.taken| ensures v.taken[b] {
        TotalHas(Clear(v.taken), b);
      }
    }
  }

  /** The data blocks that blocks lo..hi of file k still lack. */
  function Holes(v: Vol, k: nat, lo: nat, hi: nat): nat
    requires Sized(v)
    decreases hi - lo
  {
    if lo >= hi then 0 else (if Ptr(v, SlotOf(k, lo)) == 0 then 1 else 0) + Holes(v, k, lo + 1, hi)
  }

  /** The blocks that a transfer over blocks lo..hi of file k allocates, the indirect block included. */
  function Needs(v: Vol, k: nat, lo: nat, hi: nat): nat
    requires Sized(v)
  {
    Holes(v, k, lo, hi) + (if lo < hi && hi > 1 && Ptr(v, Indirect(k)) == 0 then 1 else 0)
  }

  lemma {:induction false} HolesSame(v: Vol, v': Vol, k: nat, lo: nat, hi: nat)
    requires Sized(v) && Sized(v')
    requires forall i :: lo <= i < hi ==> Ptr(v', SlotOf(k, i)) == Ptr(v, SlotOf(k, i))
    ensures Holes(v', k, lo, hi) == Holes(v, k, lo, hi)
    decreases hi - lo
  {
    if lo < hi { HolesSame(v, v', k, lo + 1, hi); }
  }

  lemma ClaimFree(v: Vol, own: Owners, b: nat, s: Slot)
    requires Claims(v, own, b, s)
    ensures Free(v) > 0 && Free(Claimed(v, b, s)) == Free(v) - 1
  {
    FreeTaken(v, b);
  }

  /** getBlockNumber(i) of file k found or made a block: what it changed. */
  ghost predicate Reached(v: Vol, v': Vol, k: nat, i: nat) {
    && Sized(v) && Sized(v') && k < COUNT && i <= ENTRIES && v'.used == v.used && v'.inodes[k].size == v.inodes[k].size
    && IsBlock(Ptr(v', SlotOf(k, i)))
    && (forall t :: Live(v, t) && t != SlotOf(k, i) && t != Indirect(k) ==> Ptr(v', t) == Ptr(v, t))
    && (if i == 0 then Ptr(v', Indirect(k)) == Ptr(v, Indirect(k)) else Ptr(v', Indirect(k)) != 0)
    && Free(v') + Needs(v, k, i, i + 1) == Free(v)
  }

  lemma OneHole(v: Vol, k: nat, i: nat)
    requires Sized(v)
    ensures Holes(v, k, i, i + 1) == if Ptr(v, SlotOf(k, i)) == 0 then 1 else 0
  {
    assert Holes(v, k, i + 1, i + 1) == 0;
  }

  /** A transfer can be planned block by block. */
  lemma NeedsStep(v: Vol, v': Vol, k: nat, i: nat, hi: nat)
    requires Reached(v, v', k, i) && i < hi <= ENTRIES + 1 && v.used[k]
    ensures Needs(v, k, i, hi) == Needs(v, k, i, i + 1) + Needs(v', k, i + 1, hi)
    ensures Needs(v', k, i, hi) == Needs(v', k, i + 1, hi)
  {
    hide Ptr, Free;
    OneHole(v, k, i);
    forall j | i + 1 <= j < hi ensures Ptr(v', SlotOf(k, j)) == Ptr(v, SlotOf(k, j)) {
      assert Live(v, SlotOf(k, j));
    }
    HolesSame(v, v', k, i + 1, hi);
  }

  /** A write inside a block uses up nothing. */
  lemma NeedsWritten(v: Vol, own: Owners, k: nat, i: nat, start: nat, c: seq<Byte>, lo: nat, hi: nat)
    requires Writes(v, own, k, i, start, c) && hi <= ENTRIES + 1
    ensures var v' := Written(v, k, i, start, c);
      Needs(v', k, lo, hi) == Needs(v, k, lo, hi) && Free(v') == Free(v)
  {
    hide Ptr, Owned, Files, Free;
    var v' := Written(v, k, i, start, c);
    WritePtr(v, own, k, i, start, c, Indirect(k));
    forall j | lo <= j < hi ensures Ptr(v', SlotOf(k, j)) == Ptr(v, SlotOf(k, j)) {
      WritePtr(v, own, k, i, start, c, SlotOf(k, j));
    }
    HolesSame(v, v', k, lo, hi);
    assert v'.taken == v.taken;
    FreeSame(v, v');
  }

  lemma FreeSame(v: Vol, v': Vol)
    requires v'.taken == v.taken
    ensures Free(v') == Free(v)
  {
  }

  /** The pointer was there already. */
  lemma ReachedAlready(v: Vol, own: Owners, k: nat, i: nat)
    requires Ok(v, own) && k < COUNT && v.used[k] && i <= ENTRIES && Ptr(v, SlotOf(k, i)) != 0
    ensures Reached(v, v, k, i) && Quiet(v, v)
  {
    hide Free, Files, Owned, ByteAt;
    OneHole(v, k, i);
    OwnerOf(v, own, SlotOf(k, i));
  }

  lemma ReachedClaim(v: Vol, own: Owners, b: nat, k: nat, i: nat)
    requires Ok(v, own) && Claims(v, own, b, SlotOf(k, i)) && k < COUNT && v.used[k] && i <= ENTRIES
    ensures Reached(v, Claimed(v, b, SlotOf(k, i)), k, i)
  {
    hide Free, Files, Owned, ByteAt, Ptr;
    var s := SlotOf(k, i);
    var v' := Claimed(v, b, s);
    OneHole(v, k, i);
    ClaimFree(v, own, b, s);
    ClaimPtr(v, own, b, s, s);
    ClaimPtr(v, own, b, s, Indirect(k));
    if i > 0 { IndirectThere(v, k); }
    forall t | Live(v, t) && t != s ensures Ptr(v', t) == Ptr(v, t) {
      ClaimPtr(v, own, b, s, t);
    }
  }

  lemma IndirectThere(v: Vol, k: nat)
    requires Sized(v) && k < COUNT && IsBlock(v.inodes[k].indirect)
    ensures Ptr(v, Indirect(k)) != 0
  {
  }

  /** First the indirect block, then the entry. */
  lemma ReachedTwo(v: Vol, own: Owners, b: nat, v2: Vol, k: nat, i: nat)
    requires Ok(v, own) && Claims(v, own, b, Indirect(k)) && k < COUNT && v.used[k] && 0 < i <= ENTRIES
    requires Reached(Claimed(v, b, Indirect(k)), v2, k, i)
    ensures Reached(v, v2, k, i)
    ensures Needs(v, k, i, i + 1) == 2 && Needs(Claimed(v, b, Indirect(k)), k, i, i + 1) == 1
  {
    hide Free, Files, Owned, ByteAt, Ptr;
    var v1 := Claimed(v, b, Indirect(k));
    EmptyEntry(v, k, i);
    OneHole(v, k, i);
    OneHole(v1, k, i);
    ClaimFree(v, own, b, Indirect(k));
    ClaimPtr(v, own, b, Indirect(k), SlotOf(k, i));
    ClaimPtr(v, own, b, Indirect(k), Indirect(k));
    forall t | Live(v, t) && t != SlotOf(k, i) && t != Indirect(k) ensures Ptr(v2, t) == Ptr(v, t) {
      ClaimPtr(v, own, b, Indirect(k), t);
      assert Live(v1, t);
    }
  }

  lemma EmptyEntry(v: Vol, k: nat, i: nat)
    requires Sized(v) && k < COUNT && Ptr(v, Indirect(k)) == 0 && 0 < i <= ENTRIES
    ensures Ptr(v, SlotOf(k, i)) == 0
  {
  }

  // ---- one write after another

  lemma RewroteThen(v: Vol, v1: Vol, v2: Vol, k: nat, off: nat, c: seq<Byte>, e: seq<Byte>)
    requires Rewrote(v, v1, k, off, c) && Rewrote(v1, v2, k, off + |c|, e)
    ensures Rewrote(v, v2, k, off, c + e)
  {
    hide ByteAt, File, Overwrite;
    OverwriteTwice(File(v, k), off, c, e);
    forall k' | 0 <= k' < COUNT && k' != k && v.used[k'] ensures SameFile(v, v2, k') {
      assert SameFile(v, v1, k') && SameFile(v1, v2, k');
    }
  }

  lemma QuietThen(v: Vol, v1: Vol, v2: Vol, k: nat, off: nat, c: seq<Byte>)
    requires Quiet(v, v1) && Rewrote(v1, v2, k, off, c) && k < COUNT && v.used[k] && v.inodes[k].size <= SPAN
    ensures Rewrote(v, v2, k, off, c)
  {
    hide ByteAt, File;
    QuietFile(v, v1, k);
    assert SameFile(v, v1, k);
    forall k' | 0 <= k' < COUNT && k' != k && v.used[k'] ensures SameFile(v, v2, k') {
      assert SameFile(v, v1, k') && SameFile(v1, v2, k');
    }
  }

  /** The free blocks suffice for a transfer over blocks lo..hi. */
  predicate Enough(v: Vol, k: nat, lo: nat, hi: nat) {
    Sized(v) && hi <= ENTRIES + 1 && Needs(v, k, lo, hi) <= Free(v)
  }

  /** Once block i is there, they suffice for what follows it, and for block i again. */
  lemma EnoughStep(v: Vol, v': Vol, k: nat, i: nat, hi: nat)
    requires Reached(v, v', k, i) && v.used[k] && i < hi && Enough(v, k, i, hi)
    ensures Enough(v', k, i, hi) && Enough(v', k, i + 1, hi)
  {
    hide Free, Needs, Ptr;
    NeedsStep(v, v', k, i, hi);
  }

  lemma EnoughFirst(v: Vol, k: nat, i: nat, hi: nat)
    requires Sized(v) && i < hi && Enough(v, k, i, hi)
    ensures Needs(v, k, i, i + 1) <= Free(v)
  {
    hide Free, Ptr;
    OneHole(v, k, i);
  }

  // ---- inodes

  /** kind and links of inode k are set; nothing that the block map is about changes. */
  function WithLinks(v: Vol, k: nat, links: Word16): (v': Vol)
    requires Sized(v) && k < COUNT
    ensures Sized(v')
  {
    v.(inodes := v.inodes[k := v.inodes[k].(links := links)])
  }

  lemma LinksKeep(v: Vol, own: Owners, k: nat, links: Word16)
    requires Ok(v, own) && k < COUNT
    ensures Ok(WithLinks(v, k, links), own)
    ensures forall j :: 0 <= j < COUNT ==> File(WithLinks(v, k, links), j) == File(v, j)
    ensures forall j, lo, hi :: Enough(v, j, lo, hi) ==> Enough(WithLinks(v, k, links), j, lo, hi)
  {
    hide Owned, Word, Free;
    var v' := WithLinks(v, k, links);
    forall s ensures Ptr(v', s) == Ptr(v, s) { }
    OwnedSame(v, v', own);
    forall j, o | 0 <= j < COUNT ensures ByteAt(v', j, o) == ByteAt(v, j, o) { }
    forall j, lo, hi | Enough(v, j, lo, hi) ensures Enough(v', j, lo, hi) {
      FreeSame(v, v');
      HolesSame(v, v', j, lo, hi);
    }
  }

  /** A fresh inode: marked, and all fields written. */
  function Created(v: Vol, k: nat, kind: Word16): (v': Vol)
    requires Sized(v) && k < COUNT
    ensures Sized(v')
  {
    v.(used := v.used[k := true], inodes := v.inodes[k := Inode(kind, 0, 0, 0, 0)])
  }

  lemma CreateKeeps(v: Vol, own: Owners, k: nat, kind: Word16)
    requires Ok(v, own) && k < COUNT && !v.used[k]
    ensures Ok(Created(v, k, kind), own) && File(Created(v, k, kind), k) == []
    ensures forall j :: 0 <= j < COUNT && v.used[j] ==> SameFile(v, Created(v, k, kind), j)
    ensures Free(Created(v, k, kind)) == Free(v)
    ensures forall s :: Live(v, s) ==> Ptr(Created(v, k, kind), s) == Ptr(v, s)
  {
    hide Owned, Word, Free;
    var v' := Created(v, k, kind);
    forall s | Live(v, s) ensures Ptr(v', s) == Ptr(v, s) { }
    forall j, o: nat | 0 <= j < COUNT && v'.used[j] && o < SPAN
      ensures ByteAt(v', j, o) == if j == k then 0 else ByteAt(v, j, o)
    {
      assert j != k ==> Live(v, SlotOf(j, o / BLOCK));
    }
    CreateOwned(v, own, k, kind);
    FreeSame(v, v');
  }

  lemma CreateOwned(v: Vol, own: Owners, k: nat, kind: Word16)
    requires Sized(v) && Owned(v, own) && k < COUNT && !v.used[k]
    ensures Owned(Created(v, k, kind), own)
  {
    hide Word;
    var v' := Created(v, k, kind);
    forall s | Live(v', s) && Ptr(v', s) != 0 ensures Live(v, s) && Ptr(v, s) == Ptr(v', s) {
      assert s.k != k;
    }
  }

  /** What mkfs leaves: one empty directory, and every data block free. */
  function Blank(v: Vol, root: nat): (v': Vol)
    requires Sized(v) && root < COUNT
    ensures Sized(v')
  {
    Vol(root, v.inodes[root := Inode(1, 1, 0, 0, 0)],
        seq(COUNT, _ => false)[root := true], seq(COUNT, _ => false), v.data, v.other)
  }

  lemma BlankOk(v: Vol, root: nat)
    requires Sized(v) && root < COUNT
    ensures Ok(Blank(v, root), seq(COUNT, _ => None)) && File(Blank(v, root), root) == []
  {
    hide Word;
  }

  // ---- the volume as a map from inumbers to byte sequences

  ghost function Contents(v: Vol): map<nat, seq<Byte>>
    requires Sized(v)
  {
    map k | 0 <= k < COUNT && v.used[k] :: File(v, k)
  }

  /** A write through the block map is an update of one byte sequence. */
  lemma WriteRefines(v: Vol, own: Owners, v': Vol, k: nat, off: nat, c: seq<Byte>)
    requires Ok(v, own) && Rewrote(v, v', k, off, c) && v.used[k]
    ensures Contents(v') == Contents(v)[k := Overwrite(Contents(v)[k], off, c)]
  {
    hide File, ByteAt, Overwrite, Owned;
    forall j | 0 <= j < COUNT && v.used[j] && j != k ensures File(v', j) == File(v, j) {
      assert SameFile(v, v', j);
      SameBytes(v, v', j);
    }
  }

  /** What a read does, allocating the holes it meets, is no update at all. */
  lemma ReadRefines(v: Vol, own: Owners, v': Vol)
    requires Ok(v, own) && Quiet(v, v')
    ensures Contents(v') == Contents(v)
  {
    hide File, ByteAt, Owned;
    forall j | 0 <= j < COUNT && v.used[j] ensures File(v', j) == File(v, j) {
      QuietFile(v, v', j);
    }
  }

  lemma SameBytes(v: Vol, v': Vol, k: nat)
    requires Sized(v) && Sized(v') && k < COUNT && SameFile(v, v', k) && v.inodes[k].size <= SPAN
    ensures File(v', k) == File(v, k)
  {
    hide ByteAt;
  }

  /** What was written reads back; all else reads as before; a gap reads as zeros. */
  lemma ReadBack(f: seq<Byte>, off: nat, c: seq<Byte>)
    ensures var g := Overwrite(f, off, c);
      && |g| == (if off + |c| > |f| then off + |c| else |f|)
      && g[off..off + |c|] == c
      && (off <= |f| ==> g[..off] == f[..off])
      && (off > |f| ==> g[..|f|] == f && forall o :: |f| <= o < off ==> g[o] == 0)
      && (off + |c| <= |f| ==> g[off + |c|..] == f[off + |c|..])
  {
  }
}
