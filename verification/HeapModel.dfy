/**
  The boundary-tag heap of kernel/heap.cc and user/heap.c as a sequence of words: each block
  carries its size in its first and last word, negative when the block is taken; available
  blocks are threaded on a doubly linked list through their second and third words.
*/
module HeapModel {
  function At(a: seq<int>, i: int): int { if 0 <= i < |a| then a[i] else 0 }

  function Abs(x: int): nat { if x < 0 then -x else x }

  /** size(i) */
  function Size(a: seq<int>, i: int): nat { Abs(At(a, i)) }

  /** The bytes between the two tags of a block. */
  function PayloadBytes(a: seq<int>, i: int): nat { if Size(a, i) < 2 then 0 else 4 * (Size(a, i) - 2) }

  /** right(i) */
  function RightOf(a: seq<int>, i: int): int { i + Size(a, i) }

  predicate IsAvail(a: seq<int>, i: int) { At(a, i) > 0 }

  predicate IsTaken(a: seq<int>, i: int) { At(a, i) < 0 }

  // ---- the shape of the heap, for the set of block headers `blocks`

  /** Blocks carry equal header and footer, do not overlap, and lie between two taken sentinels. */
  ghost predicate Tiles(a: seq<int>, blocks: set<int>) {
    && |a| >= 8
    && 0 in blocks && At(a, 0) == -2
    && |a| - 2 in blocks && At(a, |a| - 2) == -2
    && (forall s :: s in blocks ==>
          && 0 <= s && s + Size(a, s) <= |a|
          && (Size(a, s) >= 4 || (Size(a, s) == 2 && (s == 0 || s == |a| - 2)))
          && At(a, s + Size(a, s) - 1) == At(a, s))
    && (forall s, t :: s in blocks && t in blocks && s < t ==> s + Size(a, s) <= t)
  }

  /** Each block ends where the next one starts, so the blocks fill the array. */
  ghost predicate Chained(a: seq<int>, blocks: set<int>) {
    forall s {:trigger RightOf(a, s)} :: s in blocks ==>
      RightOf(a, s) == |a| || RightOf(a, s) in blocks
  }

  /** No two neighbours are available. */
  ghost predicate Apart(a: seq<int>, blocks: set<int>) {
    forall s {:trigger RightOf(a, s)} :: s in blocks && RightOf(a, s) in blocks ==>
      !(IsAvail(a, s) && IsAvail(a, RightOf(a, s)))
  }

  ghost predicate Shape(a: seq<int>, blocks: set<int>) {
    Tiles(a, blocks) && Chained(a, blocks) && Apart(a, blocks)
  }

  /** The i-th header of the free list, 0 beyond either end. */
  function Link(list: seq<int>, i: int): int { if 0 <= i < |list| then list[i] else 0 }

  /** The doubly linked list that starts at `avail` visits `list`. */
  ghost predicate Linked(a: seq<int>, list: seq<int>, avail: int) {
    && (forall i, j :: 0 <= i < j < |list| ==> list[i] != list[j])
    && avail == Link(list, 0)
    && (forall i :: 0 <= i < |list| ==>
          At(a, list[i] + 1) == Link(list, i + 1) && At(a, list[i] + 2) == Link(list, i - 1))
  }

  /** The list holds exactly the available blocks, apart from blocks in `out`. */
  ghost predicate Listed(a: seq<int>, blocks: set<int>, list: seq<int>, out: set<int>) {
    forall s :: s in list <==> s in blocks && IsAvail(a, s) && s !in out
  }

  ghost predicate HeapOk(a: seq<int>, avail: int, blocks: set<int>, list: seq<int>, out: set<int>) {
    && Shape(a, blocks)
    && Linked(a, list, avail)
    && Listed(a, blocks, list, out)
  }

  // ---- what the routines that write the array do

  /** remove(i): the new words */
  function Removed(a: seq<int>, i: int): seq<int> {
    var p, n := At(a, i + 2), At(a, i + 1);
    var a1 := if p == 0 then a else Put(a, p + 1, n);
    if n == 0 then a1 else Put(a1, n + 2, p)
  }

  /** remove(i): the new head of the list */
  function RemovedHead(a: seq<int>, avail: int, i: int): int {
    if At(a, i + 2) == 0 then At(a, i + 1) else avail
  }

  /** makeAvail(i, ints); the head of the list becomes i */
  function MadeAvail(a: seq<int>, avail: int, i: int, ints: nat): seq<int> {
    var a1 := Put(Put(Put(Put(a, i, ints), i + ints - 1, ints), i + 1, avail), i + 2, 0);
    if avail == 0 then a1 else Put(a1, avail + 2, i)
  }

  /** makeTaken(i, ints) */
  function MadeTaken(a: seq<int>, i: int, ints: nat): seq<int> {
    Put(Put(a, i, 0 - ints), i + ints - 1, 0 - ints)
  }

  function Put(a: seq<int>, i: int, x: int): (r: seq<int>)
    ensures |r| == |a|
    ensures forall k :: At(r, k) == if k == i && 0 <= i < |a| then x else At(a, k)
  {
    if 0 <= i < |a| then a[i := x] else a
  }

  // ---- words inside a block are nobody's tags

  /** Headers and footers are the same in both. */
  ghost predicate SameTags(a: seq<int>, a': seq<int>, blocks: set<int>) {
    && |a'| == |a|
    && (forall s :: s in blocks ==>
          At(a', s) == At(a, s) && At(a', s + Size(a, s) - 1) == At(a, s + Size(a, s) - 1))
  }

  lemma TagsKeep(a: seq<int>, a': seq<int>, blocks: set<int>)
    requires Shape(a, blocks) && SameTags(a, a', blocks)
    ensures Shape(a', blocks)
  {
    assert forall s :: s in blocks ==> Size(a', s) == Size(a, s);
    forall s {:trigger RightOf(a', s)} | s in blocks ensures RightOf(a', s) == |a'| || RightOf(a', s) in blocks {
      assert RightOf(a, s) == RightOf(a', s);
    }
    forall s {:trigger RightOf(a', s)} | s in blocks && RightOf(a', s) in blocks
      ensures !(IsAvail(a', s) && IsAvail(a', RightOf(a', s)))
    {
      assert RightOf(a, s) == RightOf(a', s);
    }
  }

  /** Position x lies strictly between the tags of block b, so it is no block's tag. */
  lemma Inside(a: seq<int>, blocks: set<int>, b: int, x: int)
    requires Tiles(a, blocks) && b in blocks && b < x < b + Size(a, b) - 1
    ensures forall s :: s in blocks ==> s != x && s + Size(a, s) - 1 != x
    ensures forall s :: s in blocks && s != b ==> x < s || s + Size(a, s) <= x
  {
    forall s | s in blocks ensures s != x && s + Size(a, s) - 1 != x && (s != b ==> x < s || s + Size(a, s) <= x) {
      if s < b {
        assert s + Size(a, s) <= b;
      } else if b < s {
        assert b + Size(a, b) <= s;
      }
    }
  }

  /** The same words in every taken block of `blocks` outside `out`, tags included. */
  ghost predicate SameTaken(a: seq<int>, a': seq<int>, blocks: set<int>, out: set<int>) {
    forall s, k :: s in blocks && IsTaken(a, s) && s !in out && s <= k < s + Size(a, s) ==> At(a', k) == At(a, k)
  }

  // ---- remove

  function Drop(list: seq<int>, j: nat): seq<int>
    requires j < |list|
  {
    list[..j] + list[j + 1..]
  }

  /** The list without the elements of `out`, in order. */
  function Keep(list: seq<int>, out: set<int>): seq<int> {
    if list == [] then []
    else (if list[0] in out then [] else [list[0]]) + Keep(list[1..], out)
  }

  lemma {:induction false} KeepAll(list: seq<int>, out: set<int>)
    requires forall i :: 0 <= i < |list| ==> list[i] !in out
    ensures Keep(list, out) == list
  {
    if list != [] {
      KeepAll(list[1..], out);
    }
  }

  lemma {:induction false} DropKeeps(list: seq<int>, j: nat)
    requires j < |list| && forall i, k :: 0 <= i < k < |list| ==> list[i] != list[k]
    ensures Drop(list, j) == Keep(list, {list[j]})
  {
    if j == 0 {
      KeepAll(list[1..], {list[0]});
      assert Drop(list, 0) == list[1..];
    } else {
      DropKeeps(list[1..], j - 1);
      assert Drop(list, j) == [list[0]] + Drop(list[1..], j - 1);
    }
  }

  lemma {:induction false} KeepTwice(list: seq<int>, a: set<int>, b: set<int>)
    ensures Keep(Keep(list, a), b) == Keep(list, a + b)
  {
    if list != [] {
      KeepTwice(list[1..], a, b);
      var rest := Keep(list[1..], a);
      if list[0] in a {
        assert Keep(list, a) == [] + rest == rest;
      } else {
        assert ([list[0]] + rest)[1..] == rest;
      }
    }
  }

  /** Elements that are not in the list do not matter. */
  lemma {:induction false} KeepSame(list: seq<int>, a: set<int>, b: set<int>)
    requires forall i :: 0 <= i < |list| ==> (list[i] in a <==> list[i] in b)
    ensures Keep(list, a) == Keep(list, b)
  {
    if list != [] {
      KeepSame(list[1..], a, b);
    }
  }

  /** What is cut off the end of a block reaches up to the next block. */
  lemma RestSize(a: seq<int>, blocks: set<int>, lo: int, m: int, hi: int)
    requires Shape(a, Cut(blocks, lo, m, hi)) && lo < m < hi && hi in blocks && hi < |a|
    ensures RightOf(a, m) == hi
  {
    var blocks' := Cut(blocks, lo, m, hi);
    assert m in blocks' && hi in blocks';
    assert RightOf(a, m) == |a| || RightOf(a, m) in blocks';
  }

  /** And so does a block made of several. */
  lemma WholeSize(a: seq<int>, blocks: set<int>, lo: int, hi: int)
    requires Shape(a, Cut(blocks, lo, hi, hi)) && lo < hi < |a| && hi in blocks
    ensures RightOf(a, lo) == hi
  {
    var blocks' := Cut(blocks, lo, hi, hi);
    assert lo in blocks' && hi in blocks';
    assert RightOf(a, lo) == |a| || RightOf(a, lo) in blocks';
  }

  lemma DistinctList(a: seq<int>, avail: int, blocks: set<int>, list: seq<int>, out: set<int>)
    requires HeapOk(a, avail, blocks, list, out)
    ensures forall i, j :: 0 <= i < j < |list| ==> list[i] != list[j]
  {
  }

  /** Writing a link of an available block touches no tag and no taken block. */
  lemma PutLink(a: seq<int>, blocks: set<int>, b: int, k: int, x: int)
    requires Shape(a, blocks) && b in blocks && IsAvail(a, b) && 1 <= k <= 2
    ensures var a' := Put(a, b + k, x);
      Shape(a', blocks) && SameTags(a, a', blocks) && SameTaken(a, a', blocks, {})
  {
    hide Chained, Apart;
    LongBlock(a, blocks, b);
    Inside(a, blocks, b, b + k);
    assert SameTags(a, Put(a, b + k, x), blocks);
    TagsKeep(a, Put(a, b + k, x), blocks);
  }

  lemma LongBlock(a: seq<int>, blocks: set<int>, b: int)
    requires Shape(a, blocks) && b in blocks && IsAvail(a, b)
    ensures Size(a, b) >= 4 && 2 <= b && b + Size(a, b) <= |a| - 2
  {
    assert 0 != b && |a| - 2 != b;
    assert 0 in blocks && 0 < b ==> 0 + Size(a, 0) <= b;
    assert |a| - 2 < b ==> |a| - 2 + Size(a, |a| - 2) <= b;
  }

  lemma SameTrans(a: seq<int>, a1: seq<int>, a2: seq<int>, blocks: set<int>)
    requires SameTags(a, a1, blocks) && SameTags(a1, a2, blocks)
    requires SameTaken(a, a1, blocks, {}) && SameTaken(a1, a2, blocks, {})
    ensures SameTags(a, a2, blocks) && SameTaken(a, a2, blocks, {})
  {
    assert forall s :: s in blocks ==> Size(a1, s) == Size(a, s);
    forall s, k | s in blocks && IsTaken(a, s) && s <= k < s + Size(a, s) ensures At(a2, k) == At(a, k) {
      assert IsTaken(a1, s);
      assert At(a1, k) == At(a, k);
    }
  }

  /** What the links of the j-th block of the list say. */
  lemma LinksOf(a: seq<int>, avail: int, blocks: set<int>, list: seq<int>, out: set<int>, j: nat)
    requires HeapOk(a, avail, blocks, list, out) && j < |list|
    ensures list[j] in blocks && IsAvail(a, list[j]) && list[j] != 0
    ensures At(a, list[j] + 1) == Link(list, j + 1) && At(a, list[j] + 2) == Link(list, j - 1)
    ensures Link(list, j + 1) != 0 <==> j + 1 < |list|
    ensures Link(list, j - 1) != 0 <==> j > 0
  {
    assert list[j] in list;
    assert j > 0 ==> list[j - 1] in list;
    assert j + 1 < |list| ==> list[j + 1] in list;
  }

  /** Taking the j-th block off the list writes only inside available blocks. */
  lemma RemovedTags(a: seq<int>, avail: int, blocks: set<int>, list: seq<int>, out: set<int>, j: nat)
    requires HeapOk(a, avail, blocks, list, out) && j < |list|
    ensures var a' := Removed(a, list[j]);
      Shape(a', blocks) && SameTags(a, a', blocks) && SameTaken(a, a', blocks, {})
  {
    hide Tiles, Chained, Apart, Linked, Listed, SameTags, SameTaken;
    LinksOf(a, avail, blocks, list, out, j);
    SameSelf(a, blocks);
    var p, n := Link(list, j - 1), Link(list, j + 1);
    var a1 := a;
    if j > 0 {
      LinksOf(a, avail, blocks, list, out, j - 1);
      PutLink(a, blocks, p, 1, n);
      a1 := Put(a, p + 1, n);
    }
    if j + 1 < |list| {
      LinksOf(a, avail, blocks, list, out, j + 1);
      StillAvail(a, a1, blocks, n);
      PutLink(a1, blocks, n, 2, p);
      SameTrans(a, a1, Put(a1, n + 2, p), blocks);
    }
  }

  lemma SameSelf(a: seq<int>, blocks: set<int>)
    ensures SameTags(a, a, blocks) && SameTaken(a, a, blocks, {})
  {
  }

  lemma StillAvail(a: seq<int>, a1: seq<int>, blocks: set<int>, b: int)
    requires SameTags(a, a1, blocks) && b in blocks && IsAvail(a, b)
    ensures IsAvail(a1, b)
  {
  }

  lemma DropLink(list: seq<int>, j: nat, i: int)
    requires j < |list|
    ensures Link(Drop(list, j), i) == if i < j then Link(list, i) else Link(list, i + 1)
  {
  }

  /** The links after the removal run past the removed block. */
  lemma RemovedLinks(a: seq<int>, avail: int, blocks: set<int>, list: seq<int>, out: set<int>, j: nat)
    requires HeapOk(a, avail, blocks, list, out) && j < |list|
    ensures Linked(Removed(a, list[j]), Drop(list, j), RemovedHead(a, avail, list[j]))
  {
    hide Tiles, Chained, Apart, Listed, Link, Removed;
    LinksOf(a, avail, blocks, list, out, j);
    var a', list' := Removed(a, list[j]), Drop(list, j);
    DropLink(list, j, 0);
    if j == 0 { EmptyLink(list); }
    forall i | 0 <= i < |list'|
      ensures At(a', list'[i] + 1) == Link(list', i + 1) && At(a', list'[i] + 2) == Link(list', i - 1)
    {
      RemovedLinkAt(a, avail, blocks, list, out, j, i);
    }
  }

  lemma EmptyLink(list: seq<int>)
    ensures Link(list, -1) == 0
  {
  }

  lemma RemovedLinkAt(a: seq<int>, avail: int, blocks: set<int>, list: seq<int>, out: set<int>, j: nat, i: nat)
    requires HeapOk(a, avail, blocks, list, out) && j < |list| && i < |list| - 1
    ensures var a', list' := Removed(a, list[j]), Drop(list, j);
      At(a', list'[i] + 1) == Link(list', i + 1) && At(a', list'[i] + 2) == Link(list', i - 1)
  {
    hide HeapOk, Link, Removed;
    var i0 := if i < j then i else i + 1;
    assert Drop(list, j)[i] == list[i0];
    LinkWords(a, avail, blocks, list, out, i0, j);
    DropLink(list, j, i + 1);
    DropLink(list, j, i - 1);
  }

  /** Links of different blocks are different words. */
  lemma LinksApart(a: seq<int>, avail: int, blocks: set<int>, list: seq<int>, out: set<int>, i: nat, j: nat)
    requires HeapOk(a, avail, blocks, list, out) && i < |list| && j < |list| && i != j
    ensures Abs(list[i] - list[j]) >= 4
  {
    hide Chained, Apart;
    LinksOf(a, avail, blocks, list, out, i);
    LinksOf(a, avail, blocks, list, out, j);
    LongBlock(a, blocks, list[i]);
    LongBlock(a, blocks, list[j]);
    assert list[i] != list[j];
  }

  lemma LinkWords(a: seq<int>, avail: int, blocks: set<int>, list: seq<int>, out: set<int>, i: nat, j: nat)
    requires HeapOk(a, avail, blocks, list, out) && i < |list| && j < |list| && i != j
    ensures var a' := Removed(a, list[j]);
      && At(a', list[i] + 1) == (if i == j - 1 then Link(list, j + 1) else Link(list, i + 1))
      && At(a', list[i] + 2) == (if i == j + 1 then Link(list, j - 1) else Link(list, i - 1))
  {
    hide Tiles, Chained, Apart, Linked, Listed;
    LinksOf(a, avail, blocks, list, out, j);
    LinksOf(a, avail, blocks, list, out, i);
    LinkInBounds(a, avail, blocks, list, out, i);
    if j > 0 && i != j - 1 {
      LinksApart(a, avail, blocks, list, out, i, j - 1);
    }
    if j + 1 < |list| && i != j + 1 {
      LinksApart(a, avail, blocks, list, out, i, j + 1);
    }
    if j > 0 && j + 1 < |list| {
      LinksApart(a, avail, blocks, list, out, j - 1, j + 1);
    }
  }

  lemma LinkInBounds(a: seq<int>, avail: int, blocks: set<int>, list: seq<int>, out: set<int>, i: nat)
    requires HeapOk(a, avail, blocks, list, out) && i < |list|
    ensures 0 <= list[i] && list[i] + 2 < |a|
  {
    assert list[i] in list;
    LongBlock(a, blocks, list[i]);
  }

  /** remove(i) unlinks that block and leaves every tag and every taken word alone. */
  lemma RemoveOk(a: seq<int>, avail: int, blocks: set<int>, list: seq<int>, out: set<int>, j: nat)
    requires HeapOk(a, avail, blocks, list, out) && j < |list|
    ensures var a' := Removed(a, list[j]);
      && HeapOk(a', RemovedHead(a, avail, list[j]), blocks, Drop(list, j), out + {list[j]})
      && SameTags(a, a', blocks) && SameTaken(a, a', blocks, {})
  {
    hide Tiles, Chained, Apart, Linked;
    RemovedTags(a, avail, blocks, list, out, j);
    RemovedLinks(a, avail, blocks, list, out, j);
    var a', list' := Removed(a, list[j]), Drop(list, j);
    Distinct(a, avail, list, j);
    forall s ensures s in list' <==> s in blocks && IsAvail(a', s) && s !in out + {list[j]} {
      assert s in blocks ==> (IsAvail(a', s) <==> IsAvail(a, s));
    }
  }

  lemma Distinct(a: seq<int>, avail: int, list: seq<int>, j: nat)
    requires Linked(a, list, avail) && j < |list|
    ensures forall s :: s in Drop(list, j) <==> s in list && s != list[j]
  {
    hide Drop;
    forall s ensures s in Drop(list, j) <==> s in list && s != list[j] {
      if s in list && s != list[j] { Dropped(list, j, s); }
      if s in Drop(list, j) { NotDropped(list, j, s); }
    }
  }

  lemma Dropped(list: seq<int>, j: nat, s: int)
    requires j < |list| && s in list && s != list[j]
    ensures s in Drop(list, j)
  {
    var i :| 0 <= i < |list| && list[i] == s;
    assert Drop(list, j)[if i < j then i else i - 1] == s;
  }

  lemma NotDropped(list: seq<int>, j: nat, s: int)
    requires j < |list| && s in Drop(list, j) && forall x, y :: 0 <= x < y < |list| ==> list[x] != list[y]
    ensures s in list && s != list[j]
  {
    var i :| 0 <= i < |list| - 1 && Drop(list, j)[i] == s;
    assert s == list[if i < j then i else i + 1];
  }

  // ---- replacing the blocks between two headers by one block or two

  /** The headers once [lo, hi) holds the block at lo and, when m < hi, a second one at m. */
  ghost function Cut(blocks: set<int>, lo: int, m: int, hi: int): set<int> {
    (set s | s in blocks && !(lo <= s < hi)) + {lo} + (if m < hi then {m} else {})
  }

  predicate New(s: int, lo: int, m: int, hi: int) { s == lo || (s == m && m < hi) }

  /** Both ends of [lo, hi) are headers between the sentinels. */
  ghost predicate Span(a: seq<int>, blocks: set<int>, lo: int, hi: int) {
    lo in blocks && hi in blocks && 2 <= lo < hi <= |a| - 2
  }

  /** a' differs from a only in [lo, hi), where it carries the tags of the new blocks. */
  ghost predicate NewTags(a: seq<int>, a': seq<int>, lo: int, m: int, hi: int) {
    && |a'| == |a| && lo + 4 <= m <= hi && (m == hi || m + 4 <= hi)
    && (forall k :: k < lo || hi <= k ==> At(a', k) == At(a, k))
    && Size(a', lo) == m - lo && At(a', m - 1) == At(a', lo)
    && (m < hi ==> Size(a', m) == hi - m && At(a', hi - 1) == At(a', m))
  }

  lemma OutsideSpan(a: seq<int>, blocks: set<int>, lo: int, hi: int, s: int)
    requires Tiles(a, blocks) && Span(a, blocks, lo, hi) && s in blocks && !(lo <= s < hi)
    ensures s + Size(a, s) <= lo || hi <= s
  {
  }

  lemma CutTiles(a: seq<int>, a': seq<int>, blocks: set<int>, lo: int, m: int, hi: int)
    requires Shape(a, blocks) && Span(a, blocks, lo, hi) && NewTags(a, a', lo, m, hi)
    ensures Tiles(a', Cut(blocks, lo, m, hi))
  {
    hide Chained, Apart;
    var cut := Cut(blocks, lo, m, hi);
    forall s | s in cut
      ensures 0 <= s && s + Size(a', s) <= |a'|
      ensures Size(a', s) >= 4 || (Size(a', s) == 2 && (s == 0 || s == |a'| - 2))
      ensures At(a', s + Size(a', s) - 1) == At(a', s)
    {
      if !New(s, lo, m, hi) {
        OutsideSpan(a, blocks, lo, hi, s);
      }
    }
    forall s, t | s in cut && t in cut && s < t ensures s + Size(a', s) <= t {
      CutOrder(a, a', blocks, lo, m, hi, s, t);
    }
    assert 0 in cut && |a| - 2 in cut;
  }

  lemma CutOrder(a: seq<int>, a': seq<int>, blocks: set<int>, lo: int, m: int, hi: int, s: int, t: int)
    requires Tiles(a, blocks) && Span(a, blocks, lo, hi) && NewTags(a, a', lo, m, hi)
    requires s in Cut(blocks, lo, m, hi) && t in Cut(blocks, lo, m, hi) && s < t
    ensures s + Size(a', s) <= t
  {
    if !New(s, lo, m, hi) {
      OutsideSpan(a, blocks, lo, hi, s);
    }
    if !New(t, lo, m, hi) {
      OutsideSpan(a, blocks, lo, hi, t);
    }
  }

  lemma CutChained(a: seq<int>, a': seq<int>, blocks: set<int>, lo: int, m: int, hi: int)
    requires Shape(a, blocks) && Span(a, blocks, lo, hi) && NewTags(a, a', lo, m, hi)
    ensures Chained(a', Cut(blocks, lo, m, hi))
  {
    hide Apart;
    var cut := Cut(blocks, lo, m, hi);
    forall s {:trigger RightOf(a', s)} | s in cut ensures RightOf(a', s) == |a'| || RightOf(a', s) in cut {
      if !New(s, lo, m, hi) {
        OutsideSpan(a, blocks, lo, hi, s);
        assert RightOf(a', s) == RightOf(a, s);
      }
    }
  }

  /** The new blocks have no available neighbour on the side where they are available. */
  ghost predicate NewApart(a: seq<int>, a': seq<int>, blocks: set<int>, lo: int, m: int, hi: int) {
    && (IsAvail(a', lo) ==> forall s {:trigger RightOf(a, s)} :: s in blocks && RightOf(a, s) == lo ==> !IsAvail(a, s))
    && (IsAvail(a', if m < hi then m else lo) ==> !IsAvail(a, hi))
    && (m < hi ==> !(IsAvail(a', lo) && IsAvail(a', m)))
  }

  lemma CutApart(a: seq<int>, a': seq<int>, blocks: set<int>, lo: int, m: int, hi: int)
    requires Shape(a, blocks) && Span(a, blocks, lo, hi) && NewTags(a, a', lo, m, hi)
    requires NewApart(a, a', blocks, lo, m, hi)
    ensures Apart(a', Cut(blocks, lo, m, hi))
  {
    hide Chained;
    var cut := Cut(blocks, lo, m, hi);
    forall s {:trigger RightOf(a', s)} | s in cut && RightOf(a', s) in cut
      ensures !(IsAvail(a', s) && IsAvail(a', RightOf(a', s)))
    {
      if !New(s, lo, m, hi) {
        OutsideSpan(a, blocks, lo, hi, s);
        assert RightOf(a', s) == RightOf(a, s);
      } else {
        assert At(a', hi) == At(a, hi);
      }
    }
  }

  /** Words of taken blocks outside [lo, hi) are unchanged. */
  lemma CutTaken(a: seq<int>, a': seq<int>, blocks: set<int>, lo: int, hi: int, out: set<int>)
    requires Tiles(a, blocks) && Span(a, blocks, lo, hi)
    requires forall k :: k < lo || hi <= k ==> At(a', k) == At(a, k)
    requires forall s :: s in blocks && lo <= s < hi ==> IsAvail(a, s) || s in out
    ensures SameTaken(a, a', blocks, out)
  {
    forall s, k | s in blocks && IsTaken(a, s) && s !in out && s <= k < s + Size(a, s)
      ensures At(a', k) == At(a, k)
    {
      OutsideSpan(a, blocks, lo, hi, s);
    }
  }

  /** The list is still linked when none of its blocks lies in [lo, hi). */
  lemma CutLinked(a: seq<int>, a': seq<int>, avail: int, blocks: set<int>, list: seq<int>, lo: int, hi: int)
    requires Shape(a, blocks) && Span(a, blocks, lo, hi) && Linked(a, list, avail)
    requires forall s :: s in list ==> s in blocks && IsAvail(a, s) && !(lo <= s < hi)
    requires forall k :: k < lo || hi <= k ==> At(a', k) == At(a, k)
    ensures Linked(a', list, avail)
  {
    hide Chained, Apart, Link;
    forall i | 0 <= i < |list|
      ensures At(a', list[i] + 1) == At(a, list[i] + 1) && At(a', list[i] + 2) == At(a, list[i] + 2)
    {
      assert list[i] in list;
      OutsideSpan(a, blocks, lo, hi, list[i]);
      LongBlock(a, blocks, list[i]);
    }
  }

  // ---- makeAvail's last four statements: a block goes to the front of the list

  function Pushed(a: seq<int>, avail: int, i: int): seq<int> {
    var a1 := Put(Put(a, i + 1, avail), i + 2, 0);
    if avail == 0 then a1 else Put(a1, avail + 2, i)
  }

  lemma PushOk(a: seq<int>, avail: int, blocks: set<int>, list: seq<int>, i: int)
    requires HeapOk(a, avail, blocks, list, {i}) && i in blocks && IsAvail(a, i)
    ensures var a' := Pushed(a, avail, i);
      && HeapOk(a', i, blocks, [i] + list, {})
      && SameTags(a, a', blocks) && SameTaken(a, a', blocks, {})
  {
    hide Tiles, Chained, Apart, Linked, Listed, SameTags, SameTaken;
    PushTags(a, avail, blocks, list, i);
    PushLinked(a, avail, blocks, list, i);
    PushListed(a, Pushed(a, avail, i), blocks, list, i);
  }

  lemma PushTags(a: seq<int>, avail: int, blocks: set<int>, list: seq<int>, i: int)
    requires HeapOk(a, avail, blocks, list, {i}) && i in blocks && IsAvail(a, i)
    ensures var a' := Pushed(a, avail, i);
      Shape(a', blocks) && SameTags(a, a', blocks) && SameTaken(a, a', blocks, {})
  {
    hide Tiles, Chained, Apart, Listed, SameTags, SameTaken;
    PutLink(a, blocks, i, 1, avail);
    var a1 := Put(a, i + 1, avail);
    StillAvail(a, a1, blocks, i);
    PutLink(a1, blocks, i, 2, 0);
    var a2 := Put(a1, i + 2, 0);
    SameTrans(a, a1, a2, blocks);
    if avail != 0 {
      LinksOf(a, avail, blocks, list, {i}, 0);
      StillAvail(a, a2, blocks, avail);
      PutLink(a2, blocks, avail, 2, i);
      SameTrans(a, a2, Put(a2, avail + 2, i), blocks);
    }
  }

  lemma PushListed(a: seq<int>, a': seq<int>, blocks: set<int>, list: seq<int>, i: int)
    requires Listed(a, blocks, list, {i}) && SameTags(a, a', blocks) && i in blocks && IsAvail(a, i)
    ensures Listed(a', blocks, [i] + list, {})
  {
    forall s ensures s in [i] + list <==> s in blocks && IsAvail(a', s) {
      assert s in [i] + list <==> s == i || s in list;
    }
  }

  lemma PushLinked(a: seq<int>, avail: int, blocks: set<int>, list: seq<int>, i: int)
    requires HeapOk(a, avail, blocks, list, {i}) && i in blocks && IsAvail(a, i)
    ensures Linked(Pushed(a, avail, i), [i] + list, i)
  {
    hide Tiles, Chained, Apart, Listed, Pushed, At;
    var a', list' := Pushed(a, avail, i), [i] + list;
    forall j | 0 <= j < |list| ensures list[j] != i {
      PushApart(a, avail, blocks, list, i, j);
    }
    forall x | 0 <= x < |list'|
      ensures At(a', list'[x] + 1) == Link(list', x + 1) && At(a', list'[x] + 2) == Link(list', x - 1)
    {
      PushedAt(a, avail, blocks, list, i, x);
    }
  }

  lemma PushedAt(a: seq<int>, avail: int, blocks: set<int>, list: seq<int>, i: int, x: nat)
    requires HeapOk(a, avail, blocks, list, {i}) && i in blocks && IsAvail(a, i) && x <= |list|
    ensures var a', list' := Pushed(a, avail, i), [i] + list;
      At(a', list'[x] + 1) == Link(list', x + 1) && At(a', list'[x] + 2) == Link(list', x - 1)
  {
    hide Tiles, Chained, Apart, Listed, Pushed, HeapOk, At;
    if x == 0 {
      PushFront(a, avail, blocks, list, i);
    } else {
      PushLinkAt(a, avail, blocks, list, i, x - 1);
    }
  }

  lemma PushFront(a: seq<int>, avail: int, blocks: set<int>, list: seq<int>, i: int)
    requires HeapOk(a, avail, blocks, list, {i}) && i in blocks && IsAvail(a, i)
    ensures At(Pushed(a, avail, i), i + 1) == Link(list, 0) && At(Pushed(a, avail, i), i + 2) == 0
  {
    hide Tiles, Chained, Apart, Listed;
    InBounds(a, blocks, i);
    if |list| > 0 {
      PushApart(a, avail, blocks, list, i, 0);
    }
  }

  lemma PushLinkAt(a: seq<int>, avail: int, blocks: set<int>, list: seq<int>, i: int, j: nat)
    requires HeapOk(a, avail, blocks, list, {i}) && i in blocks && IsAvail(a, i) && j < |list|
    ensures At(Pushed(a, avail, i), list[j] + 1) == Link(list, j + 1)
    ensures At(Pushed(a, avail, i), list[j] + 2) == if j == 0 then i else Link(list, j - 1)
  {
    hide Tiles, Chained, Apart, Listed, Linked;
    LinksOf(a, avail, blocks, list, {i}, j);
    LinksOf(a, avail, blocks, list, {i}, 0);
    PushApart(a, avail, blocks, list, i, j);
    HeadIs(a, avail, list);
    if j > 0 {
      LinksApart(a, avail, blocks, list, {i}, j, 0);
    }
  }

  lemma HeadIs(a: seq<int>, avail: int, list: seq<int>)
    requires Linked(a, list, avail)
    ensures avail == Link(list, 0)
  {
  }

  lemma InBounds(a: seq<int>, blocks: set<int>, i: int)
    requires Shape(a, blocks) && i in blocks && IsAvail(a, i)
    ensures 2 <= i && i + 4 <= |a|
  {
    LongBlock(a, blocks, i);
  }

  lemma PushApart(a: seq<int>, avail: int, blocks: set<int>, list: seq<int>, i: int, j: nat)
    requires HeapOk(a, avail, blocks, list, {i}) && i in blocks && IsAvail(a, i) && j < |list|
    ensures Abs(list[j] - i) >= 4 && 0 <= list[j] && list[j] + 2 < |a|
  {
    hide Tiles, Chained, Apart, Linked;
    assert list[j] in list;
    InBounds(a, blocks, list[j]);
    InBounds(a, blocks, i);
    BlocksApart(a, blocks, list[j], i);
  }

  lemma BlocksApart(a: seq<int>, blocks: set<int>, s: int, t: int)
    requires Shape(a, blocks) && s in blocks && t in blocks && s != t && IsAvail(a, s) && IsAvail(a, t)
    ensures Abs(s - t) >= 4
  {
    LongBlock(a, blocks, s);
    LongBlock(a, blocks, t);
  }

  // ---- the two ways a routine ends

  /** The list is as before for the new headers: it holds what is available outside `out`. */
  lemma CutListed(a: seq<int>, a': seq<int>, blocks: set<int>, list: seq<int>, out: set<int>, lo: int, m: int,
                  hi: int, out': set<int>)
    requires Listed(a, blocks, list, out) && (forall s :: s in out ==> lo <= s < hi)
    requires forall s :: s in blocks && lo <= s < hi && IsAvail(a, s) ==> s in out
    requires forall k :: k < lo || hi <= k ==> At(a', k) == At(a, k)
    requires lo < hi && (lo in out' || !IsAvail(a', lo)) && (m < hi ==> lo < m && (m in out' || !IsAvail(a', m)))
    requires forall s :: s in out' ==> lo <= s < hi
    ensures Listed(a', Cut(blocks, lo, m, hi), list, out')
  {
  }

  /** makeAvail(lo, hi - lo) over blocks that are taken or off the list, between taken neighbours. */
  lemma PublishOk(a: seq<int>, avail: int, blocks: set<int>, list: seq<int>, out: set<int>, lo: int, hi: int)
    requires HeapOk(a, avail, blocks, list, out) && Span(a, blocks, lo, hi) && lo + 4 <= hi
    requires forall s :: s in out ==> lo <= s < hi
    requires forall s :: s in blocks && lo <= s < hi && IsAvail(a, s) ==> s in out
    requires !IsAvail(a, hi)
    requires forall s {:trigger RightOf(a, s)} :: s in blocks && RightOf(a, s) == lo ==> !IsAvail(a, s)
    ensures var a' := MadeAvail(a, avail, lo, hi - lo);
      && HeapOk(a', lo, Cut(blocks, lo, hi, hi), [lo] + list, {})
      && SameTaken(a, a', set s | s in blocks && !(lo <= s < hi), {})
  {
    hide Tiles, Chained, Apart, Linked, Listed, SameTags, SameTaken, Cut, IsAvail;
    var t := Put(Put(a, lo, hi - lo), hi - 1, hi - lo);
    var cut := Cut(blocks, lo, hi, hi);
    PublishTags(a, t, blocks, list, out, lo, hi);
    CutTiles(a, t, blocks, lo, hi, hi);
    CutChained(a, t, blocks, lo, hi, hi);
    CutApart(a, t, blocks, lo, hi, hi);
    OffSpan(a, blocks, list, out, lo, hi);
    CutLinked(a, t, avail, blocks, list, lo, hi);
    CutListed(a, t, blocks, list, out, lo, hi, hi, {lo});
    PushOk(t, avail, cut, list, lo);
    PublishTaken(a, t, MadeAvail(a, avail, lo, hi - lo), blocks, lo, hi, hi);
  }

  lemma PublishTags(a: seq<int>, t: seq<int>, blocks: set<int>, list: seq<int>, out: set<int>, lo: int, hi: int)
    requires Span(a, blocks, lo, hi) && lo + 4 <= hi && !IsAvail(a, hi)
    requires t == Put(Put(a, lo, hi - lo), hi - 1, hi - lo)
    requires forall s {:trigger RightOf(a, s)} :: s in blocks && RightOf(a, s) == lo ==> !IsAvail(a, s)
    ensures NewTags(a, t, lo, hi, hi) && NewApart(a, t, blocks, lo, hi, hi)
    ensures IsAvail(t, lo) && lo in Cut(blocks, lo, hi, hi)
  {
  }

  lemma OffSpan(a: seq<int>, blocks: set<int>, list: seq<int>, out: set<int>, lo: int, hi: int)
    requires Listed(a, blocks, list, out)
    requires forall s :: s in blocks && lo <= s < hi && IsAvail(a, s) ==> s in out
    ensures forall s :: s in list ==> s in blocks && IsAvail(a, s) && !(lo <= s < hi)
  {
  }

  lemma PublishTaken(a: seq<int>, t: seq<int>, a': seq<int>, blocks: set<int>, lo: int, m: int, hi: int)
    requires Tiles(a, blocks) && Span(a, blocks, lo, hi)
    requires forall k :: k < lo || hi <= k ==> At(t, k) == At(a, k)
    requires SameTaken(t, a', Cut(blocks, lo, m, hi), {})
    ensures SameTaken(a, a', set s | s in blocks && !(lo <= s < hi), {})
  {
    forall s, k | s in blocks && !(lo <= s < hi) && IsTaken(a, s) && s <= k < s + Size(a, s)
      ensures At(a', k) == At(a, k)
    {
      OutsideSpan(a, blocks, lo, hi, s);
      assert s in Cut(blocks, lo, m, hi) && IsTaken(t, s) && Size(t, s) == Size(a, s);
      assert At(a', k) == At(t, k);
    }
  }

  /** malloc's ending when enough is left over: a taken block of `ints` words, the rest back on the list. */
  lemma SplitOk(a: seq<int>, avail: int, blocks: set<int>, list: seq<int>, it: int, ints: nat)
    requires HeapOk(a, avail, blocks, list, {it}) && it in blocks && IsAvail(a, it)
    requires ints >= 4 && Size(a, it) >= ints + 4
    ensures var a' := MadeAvail(MadeTaken(a, it, ints), avail, it + ints, Size(a, it) - ints);
      && HeapOk(a', it + ints, Cut(blocks, it, it + ints, it + Size(a, it)), [it + ints] + list, {})
      && At(a', it) == 0 - ints
      && SameTaken(a, a', blocks, {})
  {
    hide Tiles, Chained, Apart, Linked, Listed, SameTags, SameTaken, Cut, IsAvail;
    var m, hi := it + ints, it + Size(a, it);
    var t := Put(Put(MadeTaken(a, it, ints), m, hi - m), hi - 1, hi - m);
    BlockSpan(a, blocks, it);
    SplitTags(a, t, blocks, it, m, hi);
    CutTiles(a, t, blocks, it, m, hi);
    CutChained(a, t, blocks, it, m, hi);
    CutApart(a, t, blocks, it, m, hi);
    OneInside(a, blocks, it);
    OffSpan(a, blocks, list, {it}, it, hi);
    CutLinked(a, t, avail, blocks, list, it, hi);
    CutListed(a, t, blocks, list, {it}, it, m, hi, {m});
    PushOk(t, avail, Cut(blocks, it, m, hi), list, m);
    var a' := MadeAvail(MadeTaken(a, it, ints), avail, m, hi - m);
    PublishTaken(a, t, a', blocks, it, m, hi);
    WholeTaken(a, a', blocks, it, hi);
    SameTag(t, a', Cut(blocks, it, m, hi), it);
  }

  lemma SameTag(t: seq<int>, a': seq<int>, blocks: set<int>, s: int)
    requires SameTags(t, a', blocks) && s in blocks
    ensures At(a', s) == At(t, s)
  {
  }

  lemma WholeTaken(a: seq<int>, a': seq<int>, blocks: set<int>, it: int, hi: int)
    requires SameTaken(a, a', set s | s in blocks && !(it <= s < hi), {})
    requires (forall s :: s in blocks && it <= s < hi ==> s == it) && IsAvail(a, it)
    ensures SameTaken(a, a', blocks, {})
  {
  }

  /** An available block is a span, with taken neighbours and nothing else in it. */
  lemma BlockSpan(a: seq<int>, blocks: set<int>, it: int)
    requires Shape(a, blocks) && it in blocks && IsAvail(a, it)
    ensures Span(a, blocks, it, it + Size(a, it)) && !IsAvail(a, it + Size(a, it))
    ensures Size(a, it) >= 4
  {
    LongBlock(a, blocks, it);
    assert RightOf(a, it) == it + Size(a, it);
  }

  lemma OneInside(a: seq<int>, blocks: set<int>, it: int)
    requires Tiles(a, blocks) && it in blocks
    ensures forall s :: s in blocks && it <= s < it + Size(a, it) ==> s == it
  {
  }

  lemma SplitTags(a: seq<int>, t: seq<int>, blocks: set<int>, it: int, m: int, hi: int)
    requires Span(a, blocks, it, hi) && it + 4 <= m && m + 4 <= hi && !IsAvail(a, hi)
    requires t == Put(Put(MadeTaken(a, it, m - it), m, hi - m), hi - 1, hi - m)
    ensures NewTags(a, t, it, m, hi) && NewApart(a, t, blocks, it, m, hi)
    ensures IsAvail(t, m) && !IsAvail(t, it) && At(t, it) == it - m
    ensures m in Cut(blocks, it, m, hi) && it in Cut(blocks, it, m, hi)
  {
  }

  /** malloc's ending when the block is taken whole. */
  lemma TakeOk(a: seq<int>, avail: int, blocks: set<int>, list: seq<int>, it: int)
    requires HeapOk(a, avail, blocks, list, {it}) && it in blocks && IsAvail(a, it)
    ensures var a' := MadeTaken(a, it, Size(a, it));
      && HeapOk(a', avail, blocks, list, {}) && At(a', it) == 0 - Size(a, it)
      && SameTaken(a, a', blocks, {})
  {
    hide Tiles, Chained, Apart, Linked, Listed, SameTaken, IsAvail;
    var hi := it + Size(a, it);
    var t := MadeTaken(a, it, Size(a, it));
    BlockSpan(a, blocks, it);
    TakeTags(a, t, blocks, it, hi);
    CutTiles(a, t, blocks, it, hi, hi);
    CutChained(a, t, blocks, it, hi, hi);
    CutApart(a, t, blocks, it, hi, hi);
    OneInside(a, blocks, it);
    OffSpan(a, blocks, list, {it}, it, hi);
    CutLinked(a, t, avail, blocks, list, it, hi);
    CutListed(a, t, blocks, list, {it}, it, hi, hi, {});
    CutTaken(a, t, blocks, it, hi, {});
    assert Cut(blocks, it, hi, hi) == blocks;
  }

  lemma TakeTags(a: seq<int>, t: seq<int>, blocks: set<int>, it: int, hi: int)
    requires Span(a, blocks, it, hi) && it + 4 <= hi && !IsAvail(a, hi)
    requires t == MadeTaken(a, it, hi - it)
    ensures NewTags(a, t, it, hi, hi) && NewApart(a, t, blocks, it, hi, hi)
    ensures !IsAvail(t, it) && At(t, it) == it - hi
  {
  }

  /** heapInit leaves one available block between the sentinels. */
  lemma InitOk(a: seq<int>)
    requires |a| >= 8
    ensures var n := |a|;
      var a' := MadeTaken(MadeAvail(MadeTaken(a, 0, 2), 0, 2, n - 4), n - 2, 2);
      HeapOk(a', 2, {0, 2, n - 2}, [2], {}) && IsAvail(a', 2)
  {
    hide HeapOk, MadeTaken, MadeAvail, IsAvail, At;
    var a' := MadeTaken(MadeAvail(MadeTaken(a, 0, 2), 0, 2, |a| - 4), |a| - 2, 2);
    InitWords(a, a');
    InitShape(a');
  }

  lemma InitShape(a: seq<int>)
    requires |a| >= 8 && At(a, 0) == -2 && At(a, 1) == -2
    requires At(a, 2) == |a| - 4 && At(a, 3) == 0 && At(a, 4) == 0 && At(a, |a| - 3) == |a| - 4
    requires At(a, |a| - 2) == -2 && At(a, |a| - 1) == -2
    ensures HeapOk(a, 2, {0, 2, |a| - 2}, [2], {}) && IsAvail(a, 2)
  {
    hide At;
    InitTiles(a);
    assert Linked(a, [2], 2) && Listed(a, {0, 2, |a| - 2}, [2], {}) by { hide Tiles, Chained, Apart; }
  }

  lemma InitTiles(a: seq<int>)
    requires |a| >= 8 && At(a, 0) == -2 && At(a, 1) == -2
    requires At(a, 2) == |a| - 4 && At(a, |a| - 3) == |a| - 4 && At(a, |a| - 2) == -2 && At(a, |a| - 1) == -2
    ensures Shape(a, {0, 2, |a| - 2})
  {
    hide At;
    var n := |a|;
    assert RightOf(a, 0) == 2 && RightOf(a, 2) == n - 2 && RightOf(a, n - 2) == n;
  }

  lemma InitWords(a: seq<int>, a': seq<int>)
    requires |a| >= 8
    requires a' == MadeTaken(MadeAvail(MadeTaken(a, 0, 2), 0, 2, |a| - 4), |a| - 2, 2)
    ensures |a'| == |a| && At(a', 0) == -2 && At(a', 1) == -2
    ensures At(a', 2) == |a| - 4 && At(a', 3) == 0 && At(a', 4) == 0 && At(a', |a| - 3) == |a| - 4
    ensures At(a', |a| - 2) == -2 && At(a', |a| - 1) == -2
  {
  }

  /** The head of the list is 0 or the header of a block with room for its links. */
  lemma HeadBounds(a: seq<int>, avail: int, blocks: set<int>, list: seq<int>, out: set<int>)
    requires HeapOk(a, avail, blocks, list, out)
    ensures avail == Link(list, 0) && (avail != 0 <==> |list| > 0)
    ensures avail == 0 || 0 <= avail < |a| - 2
  {
    if |list| > 0 {
      LinksOf(a, avail, blocks, list, out, 0);
      LinkInBounds(a, avail, blocks, list, out, 0);
    }
  }

  /** So are the links of every block on it. */
  lemma LinkBounds(a: seq<int>, avail: int, blocks: set<int>, list: seq<int>, out: set<int>, j: nat)
    requires HeapOk(a, avail, blocks, list, out) && j < |list|
    ensures 0 < list[j] && list[j] + 2 < |a| && IsAvail(a, list[j]) && list[j] in blocks
    ensures var p := At(a, list[j] + 2); p == 0 || 0 <= p < |a| - 2
    ensures var n := At(a, list[j] + 1); n == Link(list, j + 1) && (n == 0 || 0 <= n < |a| - 2)
    ensures At(a, list[j] + 1) != 0 <==> j + 1 < |list|
  {
    LinksOf(a, avail, blocks, list, out, j);
    LinkInBounds(a, avail, blocks, list, out, j);
    if j > 0 { LinkInBounds(a, avail, blocks, list, out, j - 1); }
    if j + 1 < |list| { LinkInBounds(a, avail, blocks, list, out, j + 1); }
  }

  // ---- the blocks the program owns

  /** Taken blocks other than the sentinels. */
  ghost function LiveOf(a: seq<int>, blocks: set<int>): set<int> {
    set s | s in blocks && IsTaken(a, s) && s != 0 && s != |a| - 2
  }

  /** A block is live when it is neither a sentinel nor on the list. */
  lemma LiveOffList(a: seq<int>, avail: int, blocks: set<int>, list: seq<int>)
    requires HeapOk(a, avail, blocks, list, {})
    ensures forall s :: s in LiveOf(a, blocks) <==> s in blocks && s !in list && s != 0 && s != |a| - 2
  {
    hide Chained, Apart, Linked;
    assert forall s :: s in blocks ==> At(a, s) != 0;
  }

  lemma TakenTrans(a: seq<int>, a1: seq<int>, a2: seq<int>, blocks: set<int>)
    requires SameTags(a, a1, blocks) && SameTaken(a, a1, blocks, {}) && SameTaken(a1, a2, blocks, {})
    ensures SameTaken(a, a2, blocks, {})
  {
    forall s, k | s in blocks && IsTaken(a, s) && s <= k < s + Size(a, s) ensures At(a2, k) == At(a, k) {
      assert IsTaken(a1, s);
      assert At(a1, k) == At(a, k);
    }
  }

  // ---- malloc's last part: remove the block, then split it or take it whole

  predicate Splits(a: seq<int>, it: int, ints: nat) { Size(a, it) >= ints + 4 }

  function TakenWords(a: seq<int>, avail: int, it: int, ints: nat): seq<int> {
    var a1 := Removed(a, it);
    if Splits(a, it, ints)
    then MadeAvail(MadeTaken(a1, it, ints), RemovedHead(a, avail, it), it + ints, Size(a, it) - ints)
    else MadeTaken(a1, it, Size(a, it))
  }

  function TakenHead(a: seq<int>, avail: int, it: int, ints: nat): int {
    if Splits(a, it, ints) then it + ints else RemovedHead(a, avail, it)
  }

  ghost function TakenBlocks(a: seq<int>, blocks: set<int>, it: int, ints: nat): set<int> {
    if Splits(a, it, ints) then Cut(blocks, it, it + ints, it + Size(a, it)) else blocks
  }

  ghost function TakenList(a: seq<int>, list: seq<int>, j: nat, ints: nat): seq<int>
    requires j < |list|
  {
    if Splits(a, list[j], ints) then [list[j] + ints] + Drop(list, j) else Drop(list, j)
  }

  lemma AfterRemove(a0: seq<int>, a1: seq<int>, blocks: set<int>, it: int)
    requires Shape(a0, blocks) && SameTags(a0, a1, blocks) && it in blocks && IsAvail(a0, it)
    ensures IsAvail(a1, it) && Size(a1, it) == Size(a0, it)
  {
  }

  lemma TakenOk(a: seq<int>, avail: int, blocks: set<int>, list: seq<int>, j: nat, ints: nat)
    requires HeapOk(a, avail, blocks, list, {}) && j < |list| && 4 <= ints <= Size(a, list[j])
    ensures var it := list[j];
      var a' := TakenWords(a, avail, it, ints);
      && HeapOk(a', TakenHead(a, avail, it, ints), TakenBlocks(a, blocks, it, ints), TakenList(a, list, j, ints), {})
      && At(a', it) == 0 - (if Splits(a, it, ints) then ints else Size(a, it))
      && SameTaken(a, a', blocks, {})
  {
    hide Shape, Linked, Listed, SameTaken, SameTags, Put, MadeTaken, MadeAvail, Cut, Drop, Removed;
    var it := list[j];
    LinksOf(a, avail, blocks, list, {}, j);
    RemoveOk(a, avail, blocks, list, {}, j);
    assert {} + {it} == {it};
    var a1 := Removed(a, it);
    AfterRemove(a, a1, blocks, it);
    if Splits(a, it, ints) {
      SplitOk(a1, RemovedHead(a, avail, it), blocks, Drop(list, j), it, ints);
    } else {
      TakeOk(a1, RemovedHead(a, avail, it), blocks, Drop(list, j), it);
    }
    TakenTrans(a, a1, TakenWords(a, avail, it, ints), blocks);
  }

  lemma TakenLive(a: seq<int>, avail: int, blocks: set<int>, list: seq<int>, j: nat, ints: nat)
    requires HeapOk(a, avail, blocks, list, {}) && j < |list| && 4 <= ints <= Size(a, list[j])
    ensures var it := list[j];
      && LiveOf(TakenWords(a, avail, it, ints), TakenBlocks(a, blocks, it, ints)) == LiveOf(a, blocks) + {it}
      && blocks <= TakenBlocks(a, blocks, it, ints)
  {
    hide Shape, Linked, Listed, SameTaken, LiveOf, TakenWords, Drop;
    var it := list[j];
    var a', blocks' := TakenWords(a, avail, it, ints), TakenBlocks(a, blocks, it, ints);
    var list' := TakenList(a, list, j, ints);
    TakenOk(a, avail, blocks, list, j, ints);
    LiveOffList(a, avail, blocks, list);
    LiveOffList(a', TakenHead(a, avail, it, ints), blocks', list');
    Unlisted(a, avail, list, j);
    LinkBounds(a, avail, blocks, list, {}, j);
    BlockBounds(a, blocks, it);
    TakenLength(a, avail, it, ints);
    forall s ensures s in LiveOf(a', blocks') <==> s in LiveOf(a, blocks) + {it} {
      assert s in list' <==> (Splits(a, it, ints) && s == it + ints) || s in Drop(list, j);
    }
  }

  lemma Unlisted(a: seq<int>, avail: int, list: seq<int>, j: nat)
    requires Linked(a, list, avail) && j < |list|
    ensures forall s :: s in Drop(list, j) <==> s in list && s != list[j]
  {
    Distinct(a, avail, list, j);
  }

  lemma BlockBounds(a: seq<int>, blocks: set<int>, it: int)
    requires Shape(a, blocks) && it in blocks && IsAvail(a, it)
    ensures 2 <= it && it + Size(a, it) <= |a| - 2
    ensures forall s :: s in blocks && it <= s < it + Size(a, it) ==> s == it
  {
    LongBlock(a, blocks, it);
    OneInside(a, blocks, it);
  }

  lemma TakenLength(a: seq<int>, avail: int, it: int, ints: nat)
    ensures |TakenWords(a, avail, it, ints)| == |a|
  {
  }

  // ---- free

  /** Every header but 0 ends some block: the one that left() finds through its footer. */
  lemma {:induction false} LeftExists(a: seq<int>, blocks: set<int>, t: int, s: int) returns (l: int)
    requires Shape(a, blocks) && t in blocks && s in blocks && t < s
    ensures l in blocks && RightOf(a, l) == s && l == (s - 1) - Size(a, s - 1) + 1
    decreases s - t
  {
    assert t + Size(a, t) <= s;
    if RightOf(a, t) == s {
      l := t;
      assert At(a, l + Size(a, l) - 1) == At(a, l);
    } else {
      assert RightOf(a, t) in blocks;
      l := LeftExists(a, blocks, RightOf(a, t), s);
    }
  }

  /** Only one block ends at s. */
  lemma OneLeft(a: seq<int>, blocks: set<int>, s: int, t: int)
    requires Tiles(a, blocks) && s in blocks && t in blocks && RightOf(a, s) == RightOf(a, t)
    ensures s == t
  {
  }

  function MaybeRemoved(a: seq<int>, i: int): seq<int> { if IsAvail(a, i) then Removed(a, i) else a }

  function MaybeHead(a: seq<int>, avail: int, i: int): int {
    if IsAvail(a, i) then RemovedHead(a, avail, i) else avail
  }

  /** `if (isAvail(i)) remove(i)` for a neighbour of the block being freed. */
  lemma MaybeRemoveOk(a: seq<int>, avail: int, blocks: set<int>, list: seq<int>, out: set<int>, i: int)
    returns (list': seq<int>)
    requires HeapOk(a, avail, blocks, list, out) && i in blocks && i !in out
    ensures var a' := MaybeRemoved(a, i);
      && HeapOk(a', MaybeHead(a, avail, i), blocks, list', if IsAvail(a, i) then out + {i} else out)
      && SameTags(a, a', blocks) && SameTaken(a, a', blocks, {})
    ensures list' == if IsAvail(a, i) then Keep(list, {i}) else list
  {
    hide Shape, SameTags, SameTaken, Removed;
    if IsAvail(a, i) {
      assert i in list;
      var j :| 0 <= j < |list| && list[j] == i;
      RemoveOk(a, avail, blocks, list, out, j);
      list' := Drop(list, j);
      DropKeeps(list, j);
    } else {
      SameSelf(a, blocks);
      list' := list;
    }
  }

  /** The bounds that remove(i) relies on. */
  lemma RemoveBounds(a: seq<int>, avail: int, blocks: set<int>, list: seq<int>, out: set<int>, i: int)
    requires HeapOk(a, avail, blocks, list, out) && i in blocks && i !in out && IsAvail(a, i)
    ensures 0 <= i && i + 2 < |a|
    ensures At(a, i + 2) == 0 || 0 <= At(a, i + 2) < |a| - 2
    ensures At(a, i + 1) == 0 || 0 <= At(a, i + 1) < |a| - 2
  {
    assert i in list;
    var j :| 0 <= j < |list| && list[j] == i;
    LinkBounds(a, avail, blocks, list, out, j);
  }

  /** The block being freed, with the available neighbours it swallows. */
  function FreeLo(a: seq<int>, l: int, i: int): int { if IsAvail(a, l) then l else i }

  function FreeHi(a: seq<int>, i: int, r: int): int { if IsAvail(a, r) then RightOf(a, r) else r }

  function FreeOut(a: seq<int>, l: int, r: int): set<int> {
    (if IsAvail(a, l) then {l} else {}) + (if IsAvail(a, r) then {r} else {})
  }

  lemma FreeSpan(a: seq<int>, blocks: set<int>, l: int, i: int)
    requires Shape(a, blocks) && i in LiveOf(a, blocks) && l in blocks && RightOf(a, l) == i
    ensures var r := RightOf(a, i); var lo, hi := FreeLo(a, l, i), FreeHi(a, i, r);
      && r in blocks && l < i < r && Span(a, blocks, lo, hi) && lo + 4 <= hi
      && hi - lo == Size(a, i) + (if IsAvail(a, l) then Size(a, l) else 0) + (if IsAvail(a, r) then Size(a, r) else 0)
      && !IsAvail(a, hi)
      && (forall s :: s in blocks && lo <= s < hi ==> s == i || s in FreeOut(a, l, r))
  {
    hide Apart;
    var r := RightOf(a, i);
    assert i + Size(a, i) <= |a| - 2 by {
      assert i < |a| - 2;
    }
    assert r in blocks;
    if IsAvail(a, r) {
      BlockSpan(a, blocks, r);
      assert RightOf(a, r) in blocks;
    }
    if IsAvail(a, l) {
      LongBlock(a, blocks, l);
    }
    assert 2 <= i by {
      assert 0 + Size(a, 0) <= i;
    }
  }

  lemma FreeLeft(a: seq<int>, blocks: set<int>, l: int, i: int)
    requires Shape(a, blocks) && i in blocks && l in blocks && RightOf(a, l) == i
    ensures forall s {:trigger RightOf(a, s)} :: s in blocks && RightOf(a, s) == FreeLo(a, l, i) ==> !IsAvail(a, s)
  {
    forall s {:trigger RightOf(a, s)} | s in blocks && RightOf(a, s) == FreeLo(a, l, i) ensures !IsAvail(a, s) {
      if !IsAvail(a, l) {
        OneLeft(a, blocks, s, l);
      }
    }
  }

  /** makeAvail over the freed block and its available neighbours, which are off the list. */
  lemma FreedOk(a0: seq<int>, a: seq<int>, avail: int, blocks: set<int>, list: seq<int>, l: int, i: int)
    requires Shape(a0, blocks) && i in LiveOf(a0, blocks) && l in blocks && RightOf(a0, l) == i
    requires SameTags(a0, a, blocks) && SameTaken(a0, a, blocks, {})
    requires HeapOk(a, avail, blocks, list, FreeOut(a0, l, RightOf(a0, i)))
    ensures var lo, hi := FreeLo(a0, l, i), FreeHi(a0, i, RightOf(a0, i));
      var a' := MadeAvail(a, avail, lo, hi - lo);
      && lo < hi && HeapOk(a', lo, Cut(blocks, lo, hi, hi), [lo] + list, {})
      && LiveOf(a', Cut(blocks, lo, hi, hi)) == LiveOf(a0, blocks) - {i}
      && SameTaken(a0, a', blocks, {i})
  {
    hide Tiles, Chained, Apart, Linked, Listed, SameTags, SameTaken, MadeAvail, LiveOf;
    var r := RightOf(a0, i);
    var lo, hi := FreeLo(a0, l, i), FreeHi(a0, i, r);
    SameShape(a0, a, blocks, l, i);
    FreeSpan(a, blocks, l, i);
    NotTaken(a, blocks, i);
    FreeLeft(a, blocks, l, i);
    PublishOk(a, avail, blocks, list, FreeOut(a0, l, r), lo, hi);
    FreedTaken(a0, a, MadeAvail(a, avail, lo, hi - lo), blocks, l, i);
    FreedLive(a, avail, blocks, list, l, i);
    SameLive(a0, a, blocks);
  }

  lemma NotTaken(a: seq<int>, blocks: set<int>, i: int)
    requires i in LiveOf(a, blocks)
    ensures !IsAvail(a, i) && i in blocks
  {
  }

  lemma SameLive(a0: seq<int>, a: seq<int>, blocks: set<int>)
    requires SameTags(a0, a, blocks)
    ensures LiveOf(a, blocks) == LiveOf(a0, blocks)
  {
  }

  lemma SameShape(a0: seq<int>, a: seq<int>, blocks: set<int>, l: int, i: int)
    requires Shape(a0, blocks) && SameTags(a0, a, blocks) && i in LiveOf(a0, blocks) && l in blocks
    requires RightOf(a0, l) == i
    ensures i in LiveOf(a, blocks) && RightOf(a, l) == i && RightOf(a, i) == RightOf(a0, i)
    ensures FreeLo(a, l, i) == FreeLo(a0, l, i) && FreeHi(a, i, RightOf(a, i)) == FreeHi(a0, i, RightOf(a0, i))
    ensures FreeOut(a, l, RightOf(a, i)) == FreeOut(a0, l, RightOf(a0, i))
    ensures forall s :: s in FreeOut(a0, l, RightOf(a0, i)) ==> FreeLo(a0, l, i) <= s < FreeHi(a0, i, RightOf(a0, i))
  {
    FreeSpan(a0, blocks, l, i);
    assert RightOf(a0, i) in blocks;
  }

  lemma FreedTaken(a0: seq<int>, a: seq<int>, a': seq<int>, blocks: set<int>, l: int, i: int)
    requires Shape(a0, blocks) && i in LiveOf(a0, blocks) && l in blocks && RightOf(a0, l) == i
    requires SameTags(a0, a, blocks) && SameTaken(a0, a, blocks, {})
    requires var lo, hi := FreeLo(a0, l, i), FreeHi(a0, i, RightOf(a0, i));
      SameTaken(a, a', set s | s in blocks && !(lo <= s < hi), {})
    ensures SameTaken(a0, a', blocks, {i})
  {
    hide Apart, Chained;
    FreeSpan(a0, blocks, l, i);
    var lo, hi := FreeLo(a0, l, i), FreeHi(a0, i, RightOf(a0, i));
    forall s, k | s in blocks && IsTaken(a0, s) && s != i && s <= k < s + Size(a0, s)
      ensures At(a', k) == At(a0, k)
    {
      assert !(lo <= s < hi);
      assert IsTaken(a, s) && At(a, k) == At(a0, k);
    }
  }

  lemma FreedLive(a: seq<int>, avail: int, blocks: set<int>, list: seq<int>, l: int, i: int)
    requires i in LiveOf(a, blocks) && l in blocks && RightOf(a, l) == i
    requires HeapOk(a, avail, blocks, list, FreeOut(a, l, RightOf(a, i)))
    requires var lo, hi := FreeLo(a, l, i), FreeHi(a, i, RightOf(a, i));
      HeapOk(MadeAvail(a, avail, lo, hi - lo), lo, Cut(blocks, lo, hi, hi), [lo] + list, {})
    ensures var lo, hi := FreeLo(a, l, i), FreeHi(a, i, RightOf(a, i));
      LiveOf(MadeAvail(a, avail, lo, hi - lo), Cut(blocks, lo, hi, hi)) == LiveOf(a, blocks) - {i}
  {
    hide Tiles, Chained, Apart, Linked, MadeAvail;
    FreeSpan(a, blocks, l, i);
    var lo, hi := FreeLo(a, l, i), FreeHi(a, i, RightOf(a, i));
    var a', cut := MadeAvail(a, avail, lo, hi - lo), Cut(blocks, lo, hi, hi);
    LiveOffList(a', lo, cut, [lo] + list);
    NonZero(a, blocks);
    FreedLength(a, avail, lo, hi);
    forall s ensures s in LiveOf(a', cut) <==> s in LiveOf(a, blocks) - {i} {
      assert s in [lo] + list <==> s == lo || s in list;
    }
  }

  lemma NonZero(a: seq<int>, blocks: set<int>)
    requires Shape(a, blocks)
    ensures forall s :: s in blocks ==> At(a, s) != 0
  {
  }

  lemma FreedLength(a: seq<int>, avail: int, lo: int, hi: int)
    requires lo < hi
    ensures |MadeAvail(a, avail, lo, hi - lo)| == |a|
  {
  }

  // ---- the program writes the payload of a block it owns

  lemma PayloadOk(a: seq<int>, a': seq<int>, avail: int, blocks: set<int>, list: seq<int>, j: int)
    requires HeapOk(a, avail, blocks, list, {}) && j in LiveOf(a, blocks) && |a'| == |a|
    requires forall k :: !(j < k < j + Size(a, j) - 1) ==> At(a', k) == At(a, k)
    ensures HeapOk(a', avail, blocks, list, {})
    ensures LiveOf(a', blocks) == LiveOf(a, blocks) && SameTaken(a, a', blocks, {j}) && Size(a', j) == Size(a, j)
  {
    hide Chained, Apart, Linked;
    PayloadTags(a, a', blocks, j);
    TagsKeep(a, a', blocks);
    SameLive(a, a', blocks);
    PayloadLinked(a, a', avail, blocks, list, j);
  }

  lemma PayloadTags(a: seq<int>, a': seq<int>, blocks: set<int>, j: int)
    requires Shape(a, blocks) && j in blocks && |a'| == |a|
    requires forall k :: !(j < k < j + Size(a, j) - 1) ==> At(a', k) == At(a, k)
    ensures SameTags(a, a', blocks) && SameTaken(a, a', blocks, {j}) && Size(a', j) == Size(a, j)
  {
    hide Chained, Apart;
    forall s | s in blocks
      ensures At(a', s) == At(a, s) && At(a', s + Size(a, s) - 1) == At(a, s + Size(a, s) - 1)
      ensures s != j ==> s + Size(a, s) <= j || j + Size(a, j) <= s
    {
      if s < j {
        assert s + Size(a, s) <= j;
      } else if j < s {
        assert j + Size(a, j) <= s;
      }
    }
  }

  lemma PayloadLinked(a: seq<int>, a': seq<int>, avail: int, blocks: set<int>, list: seq<int>, j: int)
    requires HeapOk(a, avail, blocks, list, {}) && j in LiveOf(a, blocks)
    requires forall k :: !(j < k < j + Size(a, j) - 1) ==> At(a', k) == At(a, k)
    ensures Linked(a', list, avail)
  {
    hide Chained, Apart, Link;
    forall i | 0 <= i < |list|
      ensures At(a', list[i] + 1) == At(a, list[i] + 1) && At(a', list[i] + 2) == At(a, list[i] + 2)
    {
      assert list[i] in list;
      LongBlock(a, blocks, list[i]);
    }
  }

  /** Two blocks do not overlap. */
  lemma TwoBlocks(a: seq<int>, blocks: set<int>, i: int, j: int)
    requires Shape(a, blocks) && i in LiveOf(a, blocks) && j in LiveOf(a, blocks) && i != j
    ensures 0 <= i && 0 <= j && i + Size(a, i) <= |a| - 2 && j + Size(a, j) <= |a| - 2
    ensures i + Size(a, i) <= j || j + Size(a, j) <= i
    ensures Size(a, i) >= 4 && Size(a, j) >= 4
  {
  }
}
