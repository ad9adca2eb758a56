/**
  The allocator over one array of words: kernel/heap.cc's malloc and free, and user/heap.c's
  first-fit malloc and realloc, which share every helper.  A pointer is the index of the first
  payload word; index 0 is the address that malloc(0) returns.
*/
module Heap {
  import opened HeapModel
  import opened Options

  const WRAP: nat := 0x1_0000_0000

  /** The words a request takes, tags included; `bytes + 3` is 32-bit unsigned arithmetic. */
  function Ints(bytes: nat): (n: nat)
    ensures n >= 4
  {
    var n := (bytes + 3) % WRAP / 4 + 2;
    if n < 4 then 4 else n
  }

  /** A block for `bytes` holds that many bytes exactly for the requests whose rounding does not wrap. */
  lemma IntsEnough(bytes: nat)
    requires 0 < bytes < WRAP
    ensures 4 * (Ints(bytes) - 2) >= bytes <==> bytes <= WRAP - 4
  {
  }

  /** It is never more than needed by a word, but for the least size that a block must have. */
  lemma IntsClose(bytes: nat)
    requires bytes <= WRAP - 4
    ensures bytes >= 5 ==> bytes <= 4 * (Ints(bytes) - 2) < bytes + 4
    ensures bytes <= 8 ==> Ints(bytes) == 4
  {
  }

  /** A request whose rounding wraps: the largest one gets 8 bytes. */
  lemma IntsTooSmall()
    ensures Ints(0xFFFF_FFFF) == 4 && 4 * (Ints(0xFFFF_FFFF) - 2) == 8
  {
  }

  /** What malloc makes of a block that it has chosen: all of it, when less than 4 words would be left. */
  function GrantSize(size: nat, ints: nat): nat { if size >= ints + 4 then ints else size }

  /** The words that realloc's copy writes, for an old block of `size` words. */
  function CopyWords(newSize: nat, size: nat): nat { (Min(newSize, 4 * size) + 3) / 4 }

  /** The blocks of the list that are large enough, in list order. */
  function Fits(a: seq<int>, list: seq<int>, ints: nat): seq<int> {
    if list == [] then []
    else
      var front, last := list[..|list| - 1], list[|list| - 1];
      Fits(a, front, ints) + (if Size(a, last) >= ints then [last] else [])
  }

  /** The part of the fitting blocks that malloc looks at. */
  function FirstFits(a: seq<int>, list: seq<int>, ints: nat): seq<int> {
    var f := Fits(a, list, ints);
    if |f| <= 20 then f else f[..20]
  }

  lemma {:induction false} FitsIn(a: seq<int>, list: seq<int>, ints: nat, s: int)
    ensures s in Fits(a, list, ints) <==> s in list && Size(a, s) >= ints
  {
    if list != [] {
      var front, last := list[..|list| - 1], list[|list| - 1];
      FitsIn(a, front, ints, s);
      assert list == front + [last];
    }
  }

  lemma {:induction false} FitsPrefix(a: seq<int>, list: seq<int>, ints: nat, j: nat)
    requires j <= |list|
    ensures Fits(a, list[..j], ints) <= Fits(a, list, ints)
  {
    if j < |list| {
      FitsPrefix(a, list[..|list| - 1], ints, j);
      assert list[..|list| - 1][..j] == list[..j];
    } else {
      assert list[..j] == list;
    }
  }

  lemma FitsNone(a: seq<int>, list: seq<int>, ints: nat)
    ensures Fits(a, list[..0], ints) == []
  {
  }

  lemma FitsStep(a: seq<int>, list: seq<int>, ints: nat, j: nat)
    requires j < |list|
    ensures Fits(a, list[..j + 1], ints)
      == Fits(a, list[..j], ints) + (if Size(a, list[j]) >= ints then [list[j]] else [])
  {
    assert list[..j + 1][..j] == list[..j];
  }

  /** A scan of j blocks that found 20, or reached the end, has seen what malloc looks at. */
  lemma FirstAre(a: seq<int>, list: seq<int>, ints: nat, j: nat, full: bool)
    requires j <= |list| && |Fits(a, list[..j], ints)| <= 20 && Fits(a, list[..j], ints) <= Fits(a, list, ints)
    requires if full then |Fits(a, list[..j], ints)| == 20 else j == |list|
    ensures Fits(a, list[..j], ints) == FirstFits(a, list, ints)
    ensures Fits(a, list[..j], ints) == [] <==> Fits(a, list, ints) == []
  {
    assert list[..|list|] == list;
  }

  /** it is one of `fits`, and none of them is smaller. */
  predicate Smallest(a: seq<int>, fits: seq<int>, it: int) {
    && it in fits
    && forall s :: s in fits ==> Size(a, it) <= Size(a, s)
  }

  /** When at most 20 blocks fit, the one malloc takes is the smallest block that fits at all. */
  lemma BestOfAll(a: seq<int>, list: seq<int>, ints: nat, it: int)
    requires |Fits(a, list, ints)| <= 20 && Smallest(a, FirstFits(a, list, ints), it)
    ensures it in list && Size(a, it) >= ints
    ensures forall s :: s in list && Size(a, s) >= ints ==> Size(a, it) <= Size(a, s)
  {
    FitsIn(a, list, ints, it);
    forall s | s in list && Size(a, s) >= ints ensures Size(a, it) <= Size(a, s) {
      FitsIn(a, list, ints, s);
    }
  }

  /** 256^k for the bytes of one word */
  function Scale(k: nat): nat
    requires k <= 3
  {
    if k == 0 then 1 else if k == 1 then 0x100 else if k == 2 then 0x1_0000 else 0x100_0000
  }

  /** The low k bytes of a word; words are little-endian. */
  function Low(x: int, k: nat): nat
    requires k <= 3
  {
    x % Scale(k)
  }

  /** Word d with its low k bytes taken from s. */
  function Mix(d: int, s: int, k: nat): (r: int)
    requires k <= 3
    ensures Low(r, k) == Low(s, k)
  {
    MixLow(d, s, k);
    d - Low(d, k) + Low(s, k)
  }

  lemma MixLow(d: int, s: int, k: nat)
    requires k <= 3
    ensures Low(d - Low(d, k) + Low(s, k), k) == Low(s, k)
  {
  }

  /** The first n bytes of the payload at block i of a0 are those of the payload at block j of a. */
  ghost predicate SamePayload(a0: seq<int>, i: int, a: seq<int>, j: int, n: nat) {
    && (forall k :: j < k <= j + n / 4 ==> At(a, k) == At(a0, k - j + i))
    && (n % 4 != 0 ==> Low(At(a, j + 1 + n / 4), n % 4) == Low(At(a0, i + 1 + n / 4), n % 4))
  }

  function Min(x: nat, y: nat): nat { if x < y then x else y }

  class Heap {
    const words: array<int>
    var avail: int
    ghost var blocks: set<int>
    ghost var list: seq<int>

    ghost predicate Valid()
      reads this, words
    {
      HeapOk(words[..], avail, blocks, list, {})
    }

    /** The headers of the blocks that the program owns. */
    ghost function Live(): set<int>
      reads this, words
    {
      LiveOf(words[..], blocks)
    }

    /** heapInit over the given memory */
    constructor (memory: seq<int>)
      requires |memory| >= 8
      ensures Valid() && fresh(words) && Live() == {} && words.Length == |memory|
    {
      words := new int[|memory|](i requires 0 <= i < |memory| => memory[i]);
      avail := 0;
      blocks, list := {0, 2, |memory| - 2}, [2];
      new;
      hide Put, Shape, Linked, Listed;
      InitOk(memory);
      assert words[..] == memory;
      var len := words.Length;
      MakeTaken(0, 2);
      MakeAvail(2, len - 4);
      MakeTaken(len - 2, 2);
    }

    method MakeTaken(i: int, ints: nat)
      requires 0 <= i && 1 <= ints && i + ints <= words.Length
      modifies words
      ensures words[..] == MadeTaken(old(words[..]), i, ints)
    {
      words[i] := 0 - ints;
      words[i + Abs(words[i]) - 1] := 0 - ints;
    }

    method MakeAvail(i: int, ints: nat)
      requires 0 <= i && 4 <= ints && i + ints <= words.Length
      requires avail == 0 || 0 <= avail < words.Length - 2
      modifies this`avail, words
      ensures words[..] == MadeAvail(old(words[..]), old(avail), i, ints) && avail == i
    {
      words[i] := ints;
      words[i + Abs(words[i]) - 1] := ints;
      words[i + 1] := avail;
      words[i + 2] := 0;
      if avail != 0 {
        words[avail + 2] := i;
      }
      avail := i;
    }

    method Remove(i: int)
      requires 0 <= i && i + 2 < words.Length
      requires words[i + 2] == 0 || 0 <= words[i + 2] < words.Length - 1
      requires words[i + 1] == 0 || 0 <= words[i + 1] < words.Length - 2
      modifies this`avail, words
      ensures words[..] == Removed(old(words[..]), i) && avail == RemovedHead(old(words[..]), old(avail), i)
    {
      var prev := words[i + 2];
      var next := words[i + 1];
      if prev == 0 {
        avail := next;
      } else {
        words[prev + 1] := next;
      }
      if next != 0 {
        words[next + 2] := prev;
      }
    }

    /** The search loop of kernel/heap.cc: it stops at the 20th block that fits. */
    method FindBest(ints: nat) returns (it: int, mx: int)
      requires Valid() && ints >= 4
      requires words.Length < 0x7FFF_FFFF
      ensures it == 0 <==> Fits(words[..], list, ints) == []
      ensures it != 0 ==> Smallest(words[..], FirstFits(words[..], list, ints), it) && mx == Size(words[..], it)
    {
      hide Shape, Linked, Listed, Fits, FirstFits;
      ghost var a := words[..];
      HeadBounds(a, avail, blocks, list, {});
      FitsNone(a, list, ints);
      mx, it := 0x7FFF_FFFF, 0;
      var countDown := 20;
      var p := avail;
      ghost var j := 0;
      while p != 0
        invariant 0 <= j <= |list| && p == Link(list, j) && (p != 0 <==> j < |list|)
        invariant 0 < countDown <= 20 && |Fits(a, list[..j], ints)| == 20 - countDown
        invariant it == 0 <==> Fits(a, list[..j], ints) == []
        invariant it == 0 ==> mx == 0x7FFF_FFFF
        invariant it != 0 ==> Smallest(a, Fits(a, list[..j], ints), it) && mx == Size(a, it)
        decreases |list| - j
      {
        LinkBounds(a, avail, blocks, list, {}, j);
        if words[p] <= 0 {
          assert false;
        }
        var sz := Abs(words[p]);
        FitsStep(a, list, ints, j);
        BlockSize(a, blocks, p);
        j := j + 1;
        if sz >= ints {
          if sz < mx {
            mx := sz;
            it := p;
          }
          countDown := countDown - 1;
          if countDown == 0 {
            break;
          }
        }
        p := words[p + 1];
      }
      FitsPrefix(a, list, ints, j);
      assert list[..|list|] == list;
      FirstAre(a, list, ints, j, countDown == 0);
    }

    lemma BlockSize(a: seq<int>, blocks: set<int>, p: int)
      requires Shape(a, blocks) && p in blocks
      ensures Size(a, p) <= |a|
    {
    }

    /**
      What both versions of malloc do with the chosen block: off the list, then either split,
      when at least 4 words are left over, or taken whole.
    */
    method Take(it: int, mx: int, ints: nat, ghost j: nat)
      requires Valid() && j < |list| && list[j] == it && mx == Size(words[..], it) && 4 <= ints <= mx
      modifies this, words
      ensures Valid() && it in old(blocks) && old(IsAvail(words[..], it))
      ensures old(blocks) <= blocks && IsTaken(words[..], it) && ints <= Size(words[..], it) <= mx
      ensures Size(words[..], it) == GrantSize(mx, ints) && Divided(old(words[..]), old(list), it, ints)
      ensures SameTaken(old(words[..]), words[..], old(blocks), {})
      ensures Live() == old(Live()) + {it}
    {
      hide Shape, Linked, Listed, SameTaken, Put, MadeTaken, MadeAvail, TakenBlocks, TakenList, LiveOf;
      ghost var a0, avail0 := words[..], avail;
      TakenOk(a0, avail, blocks, list, j, ints);
      TakenLive(a0, avail, blocks, list, j, ints);
      RemoveReady(j);
      Remove(it);
      var extra := mx - ints;
      if extra >= 4 {
        MakeTaken(it, ints);
        MakeAvail(it + ints, extra);
      } else {
        MakeTaken(it, mx);
      }
      assert words[..] == TakenWords(a0, avail0, it, ints) && avail == TakenHead(a0, avail0, it, ints);
      ghost var blocks0, list0 := blocks, list;
      blocks, list := TakenBlocks(a0, blocks, it, ints), TakenList(a0, list, j, ints);
      DividedSo(a0, avail0, blocks0, list0, j, ints);
    }

    lemma DividedSo(a0: seq<int>, avail0: int, blocks0: set<int>, list0: seq<int>, j: nat, ints: nat)
      requires HeapOk(a0, avail0, blocks0, list0, {}) && j < |list0| && 4 <= ints <= Size(a0, list0[j]) && Valid()
      requires words.Length == |a0|
      requires blocks == TakenBlocks(a0, blocks0, list0[j], ints) && list == TakenList(a0, list0, j, ints)
      requires Size(words[..], list0[j]) == GrantSize(Size(a0, list0[j]), ints)
      ensures Divided(a0, list0, list0[j], ints)
    {
      hide Tiles, Chained, Apart, Linked, Listed, Keep, Cut;
      var it := list0[j];
      DistinctList(a0, avail0, blocks0, list0, {});
      LinkBounds(a0, avail0, blocks0, list0, {}, j);
      DropKeeps(list0, j);
      BlockSpan(a0, blocks0, it);
      if Size(a0, it) >= ints + 4 {
        RestSize(words[..], blocks0, it, it + ints, it + Size(a0, it));
        assert list[0] == it + ints && list[0] in list;
        LinkBounds(words[..], avail, blocks, list, {}, 0);
      }
    }

    /**
      What becomes of a block that malloc has chosen: with 4 words or more left over, these are an
      available block right behind and the head of the list; otherwise all of it is granted.
    */
    ghost predicate Divided(a0: seq<int>, list0: seq<int>, it: int, ints: nat)
      reads this, words
    {
      var had, has := Size(a0, it), Size(words[..], it);
      && ints <= has < ints + 4
      && (had < ints + 4 ==> has == had && list == Keep(list0, {it}))
      && (had >= ints + 4 ==>
            var rest := it + ints;
            && has == ints && rest in blocks && IsAvail(words[..], rest) && Size(words[..], rest) == had - ints
            && list == [rest] + Keep(list0, {it}))
    }

    /** The bounds that the array accesses of remove, and of what follows it, rely on. */
    lemma RemoveReady(j: nat)
      requires Valid() && j < |list|
      ensures var it := list[j];
        && it in blocks && IsAvail(words[..], it)
        && 2 <= it && it + Size(words[..], it) <= words.Length - 2
        && (words[it + 2] == 0 || 0 <= words[it + 2] < words.Length - 2)
        && (words[it + 1] == 0 || 0 <= words[it + 1] < words.Length - 2)
        && (avail == 0 || 0 <= avail < words.Length - 2)
    {
      LinkBounds(words[..], avail, blocks, list, {}, j);
      HeadBounds(words[..], avail, blocks, list, {});
      BlockBounds(words[..], blocks, list[j]);
    }

    /** What a successful malloc for `ints` words did, from the state a0, blocks0 it found. */
    ghost predicate Granted(a0: seq<int>, blocks0: set<int>, it: int, ints: nat)
      reads this, words
    {
      && it in blocks0 && IsAvail(a0, it) && blocks0 <= blocks
      && Live() == LiveOf(a0, blocks0) + {it}
      && ints <= Size(words[..], it) == GrantSize(Size(a0, it), ints)
      && SameTaken(a0, words[..], blocks0, {})
    }

    /** malloc of kernel/heap.cc */
    method Malloc(bytes: nat) returns (r: Option<nat>)
      requires Valid() && bytes < WRAP && words.Length < 0x7FFF_FFFF
      modifies this, words
      ensures Valid()
      ensures bytes == 0 ==> r == Some(0)
      ensures bytes == 0 || r.None? ==>
        words[..] == old(words[..]) && avail == old(avail) && blocks == old(blocks) && list == old(list)
      ensures bytes > 0 ==> (r.None? <==>
        forall s :: s in old(blocks) && IsAvail(old(words[..]), s) ==> Size(old(words[..]), s) < Ints(bytes))
      ensures bytes > 0 && r.Some? ==> r.value > 0 && Granted(old(words[..]), old(blocks), r.value - 1, Ints(bytes))
      ensures bytes > 0 && r.Some? ==> Divided(old(words[..]), old(list), r.value - 1, Ints(bytes))
      ensures bytes > 0 && r.Some? ==>
        Smallest(old(words[..]), FirstFits(old(words[..]), old(list), Ints(bytes)), r.value - 1)
    {
      hide Shape, Linked, Listed, LiveOf, SameTaken;
      if bytes == 0 {
        return Some(0);
      }
      var ints := Ints(bytes);
      var it, mx := FindBest(ints);
      AnyFits(words[..], avail, blocks, list, ints);
      if it == 0 {
        return None;
      }
      FirstIn(words[..], avail, blocks, list, ints, it);
      ghost var j :| 0 <= j < |list| && list[j] == it;
      Take(it, mx, ints, j);
      return Some(it + 1);
    }

    lemma AnyFits(a: seq<int>, avail: int, blocks: set<int>, list: seq<int>, ints: nat)
      requires HeapOk(a, avail, blocks, list, {})
      ensures Fits(a, list, ints) == [] <==>
        forall s :: s in blocks && IsAvail(a, s) ==> Size(a, s) < ints
    {
      hide Shape, Linked;
      if Fits(a, list, ints) == [] {
        forall s | s in blocks && IsAvail(a, s) ensures Size(a, s) < ints {
          FitsIn(a, list, ints, s);
        }
      } else {
        var s := Fits(a, list, ints)[0];
        FitsIn(a, list, ints, s);
      }
    }

    lemma FirstIn(a: seq<int>, avail: int, blocks: set<int>, list: seq<int>, ints: nat, it: int)
      requires HeapOk(a, avail, blocks, list, {}) && it in FirstFits(a, list, ints)
      ensures it in list && Size(a, it) >= ints && it > 0
    {
      FitsIn(a, list, ints, it);
      assert it in list;
      LongBlock(a, blocks, it);
    }

    /** malloc of user/heap.c: the first block of the list that is large enough. */
    method MallocFirst(bytes: nat) returns (r: Option<nat>)
      requires Valid() && bytes < WRAP
      modifies this, words
      ensures Valid()
      ensures bytes == 0 ==> r == Some(0)
      ensures bytes == 0 || r.None? ==>
        words[..] == old(words[..]) && avail == old(avail) && blocks == old(blocks) && list == old(list)
      ensures bytes > 0 ==> (r.None? <==> Fits(old(words[..]), old(list), Ints(bytes)) == [])
      ensures bytes > 0 && r.Some? ==> r.value > 0 && Granted(old(words[..]), old(blocks), r.value - 1, Ints(bytes))
      ensures bytes > 0 && r.Some? ==> Divided(old(words[..]), old(list), r.value - 1, Ints(bytes))
      ensures bytes > 0 && r.Some? ==> Fits(old(words[..]), old(list), Ints(bytes))[0] == r.value - 1
    {
      hide Shape, Linked, Listed, LiveOf, SameTaken, Ints, Divided, Keep;
      if bytes == 0 {
        return Some(0);
      }
      var ints := Ints(bytes);
      ghost var a := words[..];
      HeadBounds(a, avail, blocks, list, {});
      var p := avail;
      ghost var j := 0;
      while p != 0
        invariant 0 <= j <= |list| && p == Link(list, j) && (p != 0 <==> j < |list|)
        invariant Fits(a, list[..j], ints) == []
        invariant words[..] == a && avail == old(avail) && blocks == old(blocks) && list == old(list)
        decreases |list| - j
      {
        LinkBounds(a, avail, blocks, list, {}, j);
        FitsStep(a, list, ints, j);
        FitsPrefix(a, list, ints, j + 1);
        var sz := Abs(words[p]);
        if sz >= ints {
          Take(p, sz, ints, j);
          return Some(p + 1);
        }
        p := words[p + 1];
        j := j + 1;
      }
      assert list[..j] == list;
      return None;
    }

    /** The pointers that free accepts: null, the one malloc(0) returns, and those of blocks. */
    ghost predicate Freeable(p: Option<nat>)
      reads this, words
    {
      p.None? || p == Some(0) || (p.value - 1 in blocks && p.value - 1 != 0 && p.value - 1 != words.Length - 2)
    }

    /** free; false where the kernel stops because the block is not taken. */
    method Free(p: Option<nat>) returns (ok: bool)
      requires Valid() && Freeable(p)
      modifies this, words
      ensures Valid()
      ensures !ok || p.None? || p == Some(0) ==>
        words[..] == old(words[..]) && blocks == old(blocks) && list == old(list)
      ensures p.Some? && p.value > 0 ==> (ok <==> p.value - 1 in old(Live()))
      ensures ok && p.Some? && p.value > 0 ==> Live() == old(Live()) - {p.value - 1}
      ensures ok && p.Some? && p.value > 0 ==> SameTaken(old(words[..]), words[..], old(blocks), {p.value - 1})
      ensures p.None? || p == Some(0) ==> ok
      ensures ok && p.Some? && p.value > 0 ==> Merged(old(words[..]), old(list), p.value - 1)
    {
      hide HeapOk, Shape, Linked, Listed, SameTags, SameTaken, MadeAvail, Removed, Merged, Keep, Cut;
      if p.None? || p == Some(0) {
        return true;
      }
      var i := p.value - 1;
      ghost var a0, list0, blocks0 := words[..], list, blocks;
      ShapeOf(a0, avail, blocks, list, {});
      TagsInBounds(a0, blocks, i);
      if words[i] >= 0 {
        return false;
      }
      ghost var l := LeftExists(a0, blocks, 0, i);
      TagsInBounds(a0, blocks, l);
      var sz := Abs(words[i]);
      var left := i - 1 - Abs(words[i - 1]) + 1;
      var right := i + Abs(words[i]);
      FreeSpan(a0, blocks, l, i);
      var leftSize, rightSize := AbsorbBoth(left, i, right);
      ghost var a2 := words[..];
      FreedOk(a0, a2, avail, blocks, list, l, i);
      HeadBounds(a2, avail, blocks, list, FreeOut(a0, left, right));
      var lo, hi := if leftSize > 0 then left else i, i + sz + rightSize;
      MakeAvail(lo, leftSize + sz + rightSize);
      list := [lo] + list;
      blocks := Cut(blocks, lo, hi, hi);
      MergedSo(a0, blocks0, list0, left, i, right, lo, hi);
      return true;
    }

    /** Whichever neighbours are available go off the list. */
    method AbsorbBoth(left: int, ghost i: int, right: int) returns (leftSize: nat, rightSize: nat)
      requires Valid() && i in Live() && left in blocks && right in blocks && left < i < right
      requires left == i - Size(words[..], i - 1) && right == RightOf(words[..], i)
      modifies this`avail, this`list, words
      ensures leftSize == if old(IsAvail(words[..], left)) then old(Size(words[..], left)) else 0
      ensures rightSize == if old(IsAvail(words[..], right)) then old(Size(words[..], right)) else 0
      ensures HeapOk(words[..], avail, blocks, list, FreeOut(old(words[..]), left, right))
      ensures SameTags(old(words[..]), words[..], blocks) && SameTaken(old(words[..]), words[..], blocks, {})
      ensures list == Keep(old(list), {left, right})
    {
      hide HeapOk, Shape, Linked, Listed, SameTags, SameTaken, Keep, LiveOf;
      ghost var a0 := words[..];
      ShapeOf(a0, avail, blocks, list, {});
      MergedList(a0, avail, blocks, list, left, right);
      Absorbed(a0, left, right);
      leftSize := Absorb(left, {});
      ghost var a1 := words[..];
      TagSame(a0, a1, blocks, right);
      rightSize := Absorb(right, if IsAvail(a0, left) then {left} else {});
      SameTrans(a0, a1, words[..], blocks);
    }

    lemma ShapeOf(a: seq<int>, avail: int, blocks: set<int>, list: seq<int>, out: set<int>)
      requires HeapOk(a, avail, blocks, list, out)
      ensures Shape(a, blocks) && |a| >= 8
    {
    }

    lemma MergedSo(a0: seq<int>, blocks0: set<int>, list0: seq<int>, l: int, i: int, r: int, lo: int, hi: int)
      requires l == i - Size(a0, i - 1) && r == RightOf(a0, i) && lo <= i && r <= hi && |list| > 0 && list[0] == lo
      requires list[1..] == Keep(list0, {l, r})
      requires Valid() && blocks == Cut(blocks0, lo, hi, hi) && lo < hi < words.Length && hi in blocks0
      ensures Merged(a0, list0, i)
    {
      hide Linked, Listed, Keep, Cut, Tiles, Chained, Apart;
      WholeSize(words[..], blocks0, lo, hi);
    }

    /** The freed block i is now in the block at the head of the list, and its neighbours are in no other. */
    ghost predicate Merged(a0: seq<int>, list0: seq<int>, i: int)
      reads this, words
    {
      && list != [] && list[0] <= i && RightOf(a0, i) <= RightOf(words[..], list[0])
      && list[1..] == Keep(list0, {i - Size(a0, i - 1), RightOf(a0, i)})
    }

    /** Taking available blocks off the list is keeping the rest; taken ones are not on it. */
    lemma MergedList(a: seq<int>, avail: int, blocks: set<int>, list0: seq<int>, l: int, r: int)
      requires HeapOk(a, avail, blocks, list0, {})
      ensures var list1 := if IsAvail(a, l) then Keep(list0, {l}) else list0;
        (if IsAvail(a, r) then Keep(list1, {r}) else list1) == Keep(list0, {l, r})
    {
      hide Shape, Linked;
      var x, y: set<int> := if IsAvail(a, l) then {l} else {}, if IsAvail(a, r) then {r} else {};
      forall i | 0 <= i < |list0| ensures IsAvail(a, list0[i]) {
        assert list0[i] in list0;
      }
      KeepTwice(list0, x, y);
      KeepSame(list0, x + y, {l, r});
      if x == {} { KeepAll(list0, {}); }
      KeepAll(Keep(list0, x), {});
    }

    /** `if (isAvail(i)) { remove(i); sz += size(i); }`: the words gained. */
    method Absorb(i: int, ghost out: set<int>) returns (sz: nat)
      requires HeapOk(words[..], avail, blocks, list, out) && i in blocks && i !in out
      modifies this`avail, this`list, words
      ensures sz == if old(IsAvail(words[..], i)) then old(Size(words[..], i)) else 0
      ensures HeapOk(words[..], avail, blocks, list, if old(IsAvail(words[..], i)) then out + {i} else out)
      ensures SameTags(old(words[..]), words[..], blocks) && SameTaken(old(words[..]), words[..], blocks, {})
      ensures list == if old(IsAvail(words[..], i)) then Keep(old(list), {i}) else old(list)
    {
      hide Shape, Linked, Listed, SameTags, SameTaken, Removed;
      ghost var a0 := words[..];
      TagsInBounds(a0, blocks, i);
      ghost var list' := MaybeRemoveOk(a0, avail, blocks, list, out, i);
      if words[i] > 0 {
        RemoveBounds(a0, avail, blocks, list, out, i);
        Remove(i);
        TagSame(a0, words[..], blocks, i);
        sz := Abs(words[i]);
      } else {
        sz := 0;
      }
      list := list';
    }

    lemma Absorbed(a: seq<int>, l: int, r: int)
      ensures var out := if IsAvail(a, l) then {l} else {};
        FreeOut(a, l, r) == if IsAvail(a, r) then out + {r} else out
      ensures {} + {l} == {l}
    {
    }

    lemma TagsInBounds(a: seq<int>, blocks: set<int>, s: int)
      requires Shape(a, blocks) && s in blocks
      ensures 0 <= s < |a| && s + Size(a, s) <= |a| && At(a, s) != 0
      ensures s != 0 ==> s >= 2 && 0 in blocks
    {
      assert 0 in blocks;
      assert s > 0 ==> 0 + Size(a, 0) <= s;
    }

    lemma TagSame(a: seq<int>, a': seq<int>, blocks: set<int>, s: int)
      requires SameTags(a, a', blocks) && s in blocks
      ensures At(a', s) == At(a, s) && Size(a', s) == Size(a, s) && |a'| == |a|
    {
    }

    /** memcpy of m bytes between word-aligned places inside the array. */
    method Copy(dst: nat, src: nat, m: nat)
      requires src + (m + 3) / 4 <= words.Length && dst + (m + 3) / 4 <= words.Length
      requires src + (m + 3) / 4 <= dst || dst + (m + 3) / 4 <= src
      modifies words
      ensures words[dst..dst + m / 4] == old(words[src..src + m / 4])
      ensures m % 4 != 0 ==> Low(words[dst + m / 4], m % 4) == Low(old(words[src + m / 4]), m % 4)
      ensures forall k :: 0 <= k < words.Length && !(dst <= k < dst + (m + 3) / 4) ==> words[k] == old(words[k])
    {
      for k := 0 to m / 4
        invariant words[dst..dst + k] == old(words[src..src + k])
        invariant forall x :: 0 <= x < words.Length && !(dst <= x < dst + k) ==> words[x] == old(words[x])
      {
        words[dst + k] := words[src + k];
      }
      if m % 4 != 0 {
        words[dst + m / 4] := Mix(words[dst + m / 4], words[src + m / 4], m % 4);
      }
    }

    /**
      realloc of user/heap.c.  The bytes copied are counted with the block's two tags, so up to
      8 bytes beyond the old payload are read; they are still inside the array.  When no block is
      large enough the old one is freed all the same.
    */
    method Realloc(p: Option<nat>, newSize: nat) returns (r: Option<nat>)
      requires Valid() && newSize < WRAP && !Overruns(p, newSize)
      requires p.Some? ==> p.value > 0 && Freeable(p)
      modifies this, words
      ensures Valid()
      ensures p.Some? && p.value - 1 in old(Live()) && newSize > 0 && r.Some? ==>
        r.value > 0 && Moved(old(words[..]), old(blocks), p.value - 1, r.value - 1, newSize)
      ensures p.Some? && p.value - 1 in old(Live()) && (newSize == 0 || r.None?) ==>
        r.None? && Live() == old(Live()) - {p.value - 1}
      ensures p.Some? && p.value - 1 !in old(Live()) ==> r.None? && words[..] == old(words[..])
      ensures (p.None? || p.value - 1 in old(Live())) && newSize > 0 ==>
        (r.None? <==> Fits(old(words[..]), old(list), Ints(newSize)) == [])
      ensures p.None? && (newSize == 0 || r.None?) ==>
        words[..] == old(words[..]) && blocks == old(blocks) && list == old(list) && (newSize == 0 ==> r == Some(0))
      ensures p.None? && newSize > 0 && r.Some? ==>
        r.value > 0 && Granted(old(words[..]), old(blocks), r.value - 1, Ints(newSize))
      ensures p.Some? ==> SameTaken(old(words[..]), words[..], old(blocks), {p.value - 1})
    {
      hide Shape, Linked, Listed, LiveOf, SameTaken;
      if p.None? {
        r := MallocFirst(newSize);
        return;
      }
      if newSize == 0 {
        var freed := Free(p);
        if !freed {
          SameSelfTaken(words[..], blocks, {p.value - 1});
        }
        return None;
      }
      var i := p.value - 1;
      ghost var a0, blocks0 := words[..], blocks;
      TagsInBounds(a0, blocks0, i);
      LiveTaken(a0, blocks0, i);
      if words[i] >= 0 {
        SameSelfTaken(a0, blocks0, {i});
        return None;
      }
      var sz := 4 * Abs(words[i]);
      r := MallocFirst(newSize);
      if r.Some? {
        assert CopyWords(newSize, Size(a0, i)) <= Size(words[..], r.value - 1) - 2;
        Move(p.value, r.value, newSize, sz, a0, blocks0);
      } else {
        var freed := Free(p);
      }
    }

    /** The copy that realloc would make is longer than the payload of the block it would be granted. */
    ghost predicate Overruns(p: Option<nat>, newSize: nat)
      reads this, words
    {
      && p.Some? && p.value - 1 in Live() && newSize > 0
      && var fits := Fits(words[..], list, Ints(newSize));
        && fits != []
        && CopyWords(newSize, Size(words[..], p.value - 1)) > GrantSize(Size(words[..], fits[0]), Ints(newSize)) - 2
    }

    /** That takes one of the three sizes whose rounding wraps, and an old block that is not two words smaller. */
    lemma OverrunsWhen(p: nat, newSize: nat)
      requires Valid() && p - 1 in Live() && 0 < newSize < WRAP && Fits(words[..], list, Ints(newSize)) != []
      ensures Overruns(Some(p), newSize) <==>
        newSize > WRAP - 4 &&
        Size(words[..], p - 1) > GrantSize(Size(words[..], Fits(words[..], list, Ints(newSize))[0]), Ints(newSize)) - 2
    {
      hide Chained, Apart, Linked, Listed;
      IntsEnough(newSize);
      FitsIn(words[..], list, Ints(newSize), Fits(words[..], list, Ints(newSize))[0]);
    }

    /** The second half of a successful realloc: copy into the new block and free the old one. */
    method Move(p: nat, q: nat, newSize: nat, sz: nat, ghost a0: seq<int>, ghost blocks0: set<int>)
      requires Valid() && Shape(a0, blocks0) && 0 < p && 0 < q && p - 1 in LiveOf(a0, blocks0)
      requires 0 < newSize < WRAP && sz == 4 * Size(a0, p - 1) && Granted(a0, blocks0, q - 1, Ints(newSize))
      requires CopyWords(newSize, Size(a0, p - 1)) <= Size(words[..], q - 1) - 2
      modifies this, words
      ensures Valid()
      ensures Moved(a0, blocks0, p - 1, q - 1, newSize)
      ensures SameTaken(a0, words[..], blocks0, {p - 1})
    {
      hide Shape, Linked, Listed, LiveOf, SameTaken, SamePayload, Low, Ints, Size, Merged, Keep;
      ghost var a1, blocks1, i, j := words[..], blocks, p - 1, q - 1;
      CopyReady(a0, blocks0, i, j, newSize);
      var m := Min(newSize, sz);
      Copy(q, p, m);
      ghost var a2 := words[..];
      CopyInside(a1, a2, j, m);
      PayloadOk(a1, a2, avail, blocks, list, j);
      CopySame(a0, a1, a2, i, j, newSize);
      LiveFreeable(a2, blocks, i);
      var freed := Free(Some(p));
      MovedTaken(a0, a1, a2, words[..], blocks0, blocks1, i, j);
      MovedPayload(a0, blocks0, a2, blocks1, words[..], i, j, newSize);
    }

    lemma LiveFreeable(a: seq<int>, blocks: set<int>, i: int)
      requires i in LiveOf(a, blocks)
      ensures i in blocks && i != 0 && i != |a| - 2
    {
    }

    lemma CopyInside(a1: seq<int>, a2: seq<int>, j: int, m: nat)
      requires 0 <= j && |a2| == |a1| && (m + 3) / 4 <= Size(a1, j) - 2
      requires forall k :: 0 <= k < |a1| && !(j + 1 <= k < j + 1 + (m + 3) / 4) ==> a2[k] == a1[k]
      ensures forall k :: !(j < k < j + Size(a1, j) - 1) ==> At(a2, k) == At(a1, k)
    {
    }

    lemma SameSelfTaken(a: seq<int>, blocks: set<int>, out: set<int>)
      ensures SameTaken(a, a, blocks, out)
    {
    }

    lemma LiveTaken(a: seq<int>, blocks: set<int>, i: int)
      requires i in blocks && i != 0 && i != |a| - 2
      ensures i in LiveOf(a, blocks) <==> IsTaken(a, i)
    {
    }

    /** After the new block is granted both blocks are live, do not overlap, and the copy stays inside them. */
    lemma CopyReady(a0: seq<int>, blocks0: set<int>, i: int, j: int, newSize: nat)
      requires Valid() && Shape(a0, blocks0) && i in LiveOf(a0, blocks0) && 0 < newSize < WRAP
      requires Granted(a0, blocks0, j, Ints(newSize)) && CopyWords(newSize, Size(a0, i)) <= Size(words[..], j) - 2
      ensures i in Live() && j in Live() && i != j && i in blocks && j !in LiveOf(a0, blocks0)
      ensures forall k :: i <= k < i + Size(a0, i) ==> At(words[..], k) == At(a0, k)
      ensures (newSize <= WRAP - 4 ==> PayloadBytes(words[..], j) >= newSize) && Size(a0, i) >= 4
      ensures 0 <= i && 0 <= j && i + Size(a0, i) <= words.Length
      ensures var n := (Min(newSize, 4 * Size(a0, i)) + 3) / 4;
        && i + 1 + n <= words.Length && j + 1 + n <= words.Length && n <= Size(words[..], j) - 2
        && (i + 1 + n <= j + 1 || j + 1 + n <= i + 1)
    {
      hide Linked, Listed;
      IntsEnough(newSize);
      assert IsTaken(a0, i);
      assert At(words[..], i) == At(a0, i);
      TwoBlocks(words[..], blocks, i, j);
    }

    lemma CopySame(a0: seq<int>, a1: seq<int>, a2: seq<int>, i: int, j: int, newSize: nat)
      requires 0 <= i && 0 <= j && Size(a0, i) >= 4 && i + Size(a0, i) <= |a1| == |a2|
      requires var m := Min(newSize, 4 * Size(a0, i));
        && i + 1 + (m + 3) / 4 <= |a1| && j + 1 + (m + 3) / 4 <= |a2|
        && a2[j + 1..j + 1 + m / 4] == a1[i + 1..i + 1 + m / 4]
        && (m % 4 != 0 ==> Low(a2[j + 1 + m / 4], m % 4) == Low(a1[i + 1 + m / 4], m % 4))
      requires forall k :: i <= k < i + Size(a0, i) ==> At(a1, k) == At(a0, k)
      ensures SamePayload(a0, i, a2, j, Min(newSize, PayloadBytes(a0, i)))
    {
      var m, n := Min(newSize, 4 * Size(a0, i)), Min(newSize, PayloadBytes(a0, i));
      forall k | j < k <= j + n / 4 ensures At(a2, k) == At(a0, k - j + i) {
        assert a2[j + 1..j + 1 + m / 4][k - j - 1] == a1[i + 1..i + 1 + m / 4][k - j - 1];
      }
    }

    lemma MovedTaken(a0: seq<int>, a1: seq<int>, a2: seq<int>, a3: seq<int>, blocks0: set<int>, blocks1: set<int>,
                     i: int, j: int)
      requires SameTaken(a0, a1, blocks0, {}) && SameTaken(a1, a2, blocks1, {j}) && SameTaken(a2, a3, blocks1, {i})
      requires blocks0 <= blocks1 && IsAvail(a0, j) && Shape(a0, blocks0)
      ensures SameTaken(a0, a3, blocks0, {i})
    {
      hide Chained, Apart;
      forall s, k | s in blocks0 && IsTaken(a0, s) && s != i && s <= k < s + Size(a0, s)
        ensures At(a3, k) == At(a0, k)
      {
        assert At(a1, s) == At(a0, s) && At(a1, k) == At(a0, k);
        assert At(a2, s) == At(a1, s) && At(a2, k) == At(a1, k);
      }
    }

    lemma MovedPayload(a0: seq<int>, blocks0: set<int>, a2: seq<int>, blocks1: set<int>, a3: seq<int>, i: int, j: int,
                       newSize: nat)
      requires SamePayload(a0, i, a2, j, Min(newSize, PayloadBytes(a0, i)))
      requires SameTaken(a2, a3, blocks1, {i}) && j in LiveOf(a2, blocks1) && i != j
      requires CopyWords(newSize, Size(a0, i)) <= Size(a2, j) - 2
      ensures Size(a3, j) == Size(a2, j)
      ensures SamePayload(a0, i, a3, j, Min(newSize, PayloadBytes(a0, i)))
    {
      assert At(a3, j) == At(a2, j);
    }

    /** Block i of the state before has become block j: same first bytes, all else as it was. */
    ghost predicate Moved(a0: seq<int>, blocks0: set<int>, i: int, j: int, newSize: nat)
      reads this, words
    {
      && j !in LiveOf(a0, blocks0)
      && Live() == LiveOf(a0, blocks0) - {i} + {j}
      && (newSize <= WRAP - 4 ==> PayloadBytes(words[..], j) >= newSize)
      && SamePayload(a0, i, words[..], j, Min(newSize, PayloadBytes(a0, i)))
    }
  }

  /** Behind the last live block everything is one available block. */
  lemma Rest(a: seq<int>, avail: int, blocks: set<int>, list: seq<int>, lo: int)
    requires HeapOk(a, avail, blocks, list, {}) && lo in blocks && 0 < lo < |a| - 2 && lo !in LiveOf(a, blocks)
    requires forall s :: s in LiveOf(a, blocks) ==> s < lo
    ensures IsAvail(a, lo) && Size(a, lo) == |a| - 2 - lo && lo in list
    ensures forall s :: s in list && s >= lo ==> s == lo
  {
    hide Linked;
    var r := RightOf(a, lo);
    assert r in blocks && !IsAvail(a, r);
    assert r == |a| - 2 || r in LiveOf(a, blocks);
  }

  lemma FirstBlock(a: seq<int>, avail: int, blocks: set<int>, list: seq<int>)
    requires HeapOk(a, avail, blocks, list, {})
    ensures 2 in blocks && forall s :: s in blocks ==> s == 0 || s >= 2
  {
    assert RightOf(a, 0) == 2;
  }

  lemma TooLong(a: seq<int>, avail: int, blocks: set<int>, list: seq<int>, ints: nat)
    requires HeapOk(a, avail, blocks, list, {}) && ints > |a|
    ensures Fits(a, list, ints) == []
  {
    hide Chained, Apart, Linked;
    if Fits(a, list, ints) != [] { FitsIn(a, list, ints, Fits(a, list, ints)[0]); }
  }

  /** A realloc that fails loses the block: 8 bytes of a heap of 8 words, reallocated to 100 bytes. */
  method ReallocLoses() returns (h: Heap, p: Option<nat>, ghost before: set<int>, q: Option<nat>)
    ensures p.Some? && before == {p.value - 1} && q == None && h.Valid() && h.Live() == {}
  {
    hide Shape, Linked, Listed, LiveOf, SameTaken;
    h := new Heap([0, 0, 0, 0, 0, 0, 0, 0]);
    FirstBlock(h.words[..], h.avail, h.blocks, h.list);
    assert h.Live() == {};
    Rest(h.words[..], h.avail, h.blocks, h.list, 2);
    p := h.Malloc(8);
    before := h.Live();
    h.LiveFreeable(h.words[..], h.blocks, p.value - 1);
    TooLong(h.words[..], h.avail, h.blocks, h.list, Ints(100));
    q := h.Realloc(p, 100);
  }

  /** When no block of the list is before b, a taken one, all of the list is the block behind b. */
  lemma OnlyRest(a: seq<int>, avail: int, blocks: set<int>, list: seq<int>, b: int)
    requires HeapOk(a, avail, blocks, list, {}) && b in LiveOf(a, blocks) && RightOf(a, b) < |a| - 2
    requires (forall s :: s in LiveOf(a, blocks) ==> s <= b) && (forall s :: s in list ==> s >= b)
    ensures var lo := RightOf(a, b);
      && lo in blocks && lo in list && IsAvail(a, lo) && Size(a, lo) == |a| - 2 - lo
      && (forall s :: s in list ==> s == lo) && (forall s :: s in blocks && s > b ==> s >= lo)
  {
    hide Linked;
    var lo := RightOf(a, b);
    assert lo in blocks;
    Rest(a, avail, blocks, list, lo);
  }

  lemma OnlyFit(a: seq<int>, list: seq<int>, ints: nat, lo: int)
    requires lo in list && Size(a, lo) >= ints && forall s :: s in list ==> s == lo
    ensures Fits(a, list, ints) != [] && Fits(a, list, ints)[0] == lo
  {
    FitsIn(a, list, ints, lo);
    FitsIn(a, list, ints, Fits(a, list, ints)[0]);
  }

  /** 8 bytes in a heap of 16 words: block 2 of 4 words, and all the rest available. */
  method OneGranted() returns (h: Heap, p: nat)
    ensures fresh(h) && fresh(h.words) && h.Valid() && h.words.Length == 16 && p == 3
    ensures h.Live() == {2} && h.words[2] == -4
    ensures 6 in h.list && forall s :: s in h.list ==> s == 6
    ensures 2 in h.blocks && 6 in h.blocks && h.words[6] == 8
  {
    hide Shape, Linked, Listed, LiveOf, SameTaken, Fits;
    h := new Heap(seq(16, _ => 0));
    FirstBlock(h.words[..], h.avail, h.blocks, h.list);
    assert h.Live() == {};
    Rest(h.words[..], h.avail, h.blocks, h.list, 2);
    InBlocks(h.words[..], h.avail, h.blocks, h.list);
    OnlyFit(h.words[..], h.list, Ints(8), 2);
    var r := h.MallocFirst(8);
    p := r.value;
    LiveIs(h.words[..], h.blocks, 2);
    FirstBlock(h.words[..], h.avail, h.blocks, h.list);
    InBlocks(h.words[..], h.avail, h.blocks, h.list);
    OnlyRest(h.words[..], h.avail, h.blocks, h.list, 2);
  }

  lemma InBlocks(a: seq<int>, avail: int, blocks: set<int>, list: seq<int>)
    requires HeapOk(a, avail, blocks, list, {})
    ensures forall s :: s in list ==> s in blocks && IsAvail(a, s) && s != 0
  {
  }

  lemma LiveIs(a: seq<int>, blocks: set<int>, b: int)
    requires b in LiveOf(a, blocks)
    ensures b in blocks && At(a, b) < 0 && At(a, b) == 0 - Size(a, b)
  {
  }

  lemma TakenKept(a: seq<int>, a': seq<int>, blocks: set<int>, b: int)
    requires SameTaken(a, a', blocks, {}) && b in blocks && IsTaken(a, b)
    ensures At(a', b) == At(a, b)
  {
  }

  /** Tags agree, and no block starts inside another. */
  lemma TagsOf(a: seq<int>, blocks: set<int>, b: int)
    requires Shape(a, blocks) && b in blocks
    ensures At(a, b + Size(a, b) - 1) == At(a, b) && forall s :: s in blocks && s > b ==> s >= RightOf(a, b)
  {
  }

  /** What realloc of that block to 2^32 - 1 bytes goes on to do: it is granted block 6 of 4 words. */
  method TwoGranted() returns (h: Heap, p: nat, q: nat, ghost overruns: bool)
    ensures fresh(h) && fresh(h.words) && h.Valid() && h.words.Length == 16 && p == 3 && q == 7
    ensures overruns && h.Live() == {2, 6} && h.words[2] == -4 && h.words[6] == -4
    ensures 10 in h.blocks && h.words[10] == 4 && h.words[13] == 4
  {
    hide Shape, Linked, Listed, LiveOf, SameTaken, Fits;
    h, p := OneGranted();
    IntsTooSmall();
    OnlyFit(h.words[..], h.list, 4, 6);
    overruns := h.Overruns(Some(p), 0xFFFF_FFFF);
    ghost var a0, blocks0 := h.words[..], h.blocks;
    var r := h.MallocFirst(0xFFFF_FFFF);
    q := r.value;
    assert At(h.words[..], 2) == At(a0, 2) by { TakenKept(a0, h.words[..], blocks0, 2); }
    LiveIs(h.words[..], h.blocks, 2);
    LiveIs(h.words[..], h.blocks, 6);
    FirstBlock(h.words[..], h.avail, h.blocks, h.list);
    InBlocks(h.words[..], h.avail, h.blocks, h.list);
    TagsOf(h.words[..], h.blocks, 2);
    OnlyRest(h.words[..], h.avail, h.blocks, h.list, 6);
    TagsOf(h.words[..], h.blocks, 10);
  }

  /**
    Then it copies the old size, 16 bytes, and writes the header of the block behind: that has a
    taken header and an available footer.
  */
  method ReallocOverruns() returns (h: Heap, ghost overruns: bool)
    ensures overruns && 10 in h.blocks && h.words.Length == 16 && h.words[10] == -4 && h.words[13] == 4 && !h.Valid()
  {
    hide Shape, Linked, Listed, LiveOf, SameTaken;
    var p, q;
    h, p, q, overruns := TwoGranted();
    h.Copy(q, p, 16);
    assert h.words[7..11][3] == -4;
    if h.Valid() { TagsOf(h.words[..], h.blocks, 10); }
  }
}
