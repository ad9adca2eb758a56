/**
  What the invariant of the frame pool says about memory alone: reference counts, free list and
  write bits as a reader of the page tables would find them.
*/
module PagingFacts {
  import opened Paging
  import opened PagingSteps

  /** The page-table word that the two-level walk from directory d finds for page p, 0 if none. */
  function Walk(frames: seq<Page>, d: nat, p: VPage): Word {
    var pde := Pde(frames, d, p.i0);
    if Present(pde) && FrameOf(pde) < |frames| && p.i1 < 1024 then frames[FrameOf(pde)][p.i1] else 0
  }

  lemma WalkFinds(m: Mem, g: Shadow, d: nat, p: VPage)
    requires Inv(m, g) && d in g.live && UserPage(p)
    ensures Walk(m.frames, d, p) == Pte(m.frames, g.edges, d, p)
    ensures Present(Walk(m.frames, d, p)) <==> Leaf(d, p) in g.edges
    ensures Leaf(d, p) in g.edges ==> FrameOf(Walk(m.frames, d, p)) == g.edges[Leaf(d, p)]
  {
    assert DirEntryOk(Pde(m.frames, d, p.i0), g.edges, Table(d, p.i0));
    assert EntryOk(Pte(m.frames, g.edges, d, p), g.edges, Leaf(d, p));
  }

  ghost function PagesOn(m: Mem, live: set<nat>, f: nat): set<Use> {
    set d, p | d in live && p in UserPages()
      && Present(Walk(m.frames, d, p)) && FrameOf(Walk(m.frames, d, p)) == f :: Leaf(d, p)
  }

  ghost function TablesOn(m: Mem, live: set<nat>, f: nat): set<Use> {
    set d, i0 | d in live + {m.shared} && 0 <= i0 < 1024 && (d == m.shared <==> !UserDir(i0))
      && Present(Pde(m.frames, d, i0)) && FrameOf(Pde(m.frames, d, i0)) == f :: Table(d, i0)
  }

  /** The pages mapped to frame f, the directory words that name it as a table, and f itself as a directory. */
  ghost function UsesInMemory(m: Mem, live: set<nat>, f: nat): set<Use> {
    PagesOn(m, live, f) + TablesOn(m, live, f) + (if f in live + {m.shared} then {Dir(f)} else {})
  }

  /** Every reference count is the number of uses of its frame that memory shows. */
  lemma RefsExact(m: Mem, g: Shadow, f: nat)
    requires Inv(m, g) && Quiet(g, m.shared) && f < m.limit
    ensures m.refs[f] == |UsesInMemory(m, g.live, f)|
  {
    hide Inv, Quiet, Holders, UsesInMemory;
    forall u ensures u in Holders(g.edges, f) <==> u in UsesInMemory(m, g.live, f) {
      UseShown(m, g, f, u);
    }
    assert Holders(g.edges, f) == UsesInMemory(m, g.live, f);
    CountIs(m, g, f);
  }

  lemma CountIs(m: Mem, g: Shadow, f: nat)
    requires Inv(m, g) && f < m.limit
    ensures f < |m.refs| && m.refs[f] == |Holders(g.edges, f)|
  {
    hide FreeOk, RangeOk, UniqueOk, TreeOk, MapsOk, CowOk, KernelOk;
  }

  /** A reference is recorded exactly when memory shows it. */
  lemma UseShown(m: Mem, g: Shadow, f: nat, u: Use)
    requires Inv(m, g) && Quiet(g, m.shared) && f < m.limit
    ensures u in Holders(g.edges, f) <==> u in UsesInMemory(m, g.live, f)
  {
    hide FreeOk, CountsOk, RangeOk, UniqueOk, TreeOk, MapsOk, CowOk, KernelOk, Walk, Pde, UserPages, UserDir;
    hide Present, FrameOf;
    match u
    case Leaf(d, p) => LeafUse(m, g, d, p);
    case Table(d, i0) => TableUse(m, g, d, i0);
    case Dir(d) => DirUse(m, g, d);
    case Held(k) =>
  }

  lemma DirUse(m: Mem, g: Shadow, d: nat)
    requires Inv(m, g) && Quiet(g, m.shared)
    ensures Dir(d) in g.edges <==> d in g.live + {m.shared}
    ensures Dir(d) in g.edges ==> g.edges[Dir(d)] == d
  {
  }

  lemma LeafUse(m: Mem, g: Shadow, d: nat, p: VPage)
    requires Inv(m, g) && Quiet(g, m.shared)
    ensures Leaf(d, p) in g.edges <==>
      d in g.live && UserPage(p) && Present(Walk(m.frames, d, p))
    ensures Leaf(d, p) in g.edges ==> FrameOf(Walk(m.frames, d, p)) == g.edges[Leaf(d, p)]
  {
    if Leaf(d, p) in g.edges {
      assert Dir(d) in g.edges;
      assert d != m.shared;
    }
    if d in g.live && UserPage(p) {
      WalkFinds(m, g, d, p);
    }
  }

  lemma TableUse(m: Mem, g: Shadow, d: nat, i0: nat)
    requires Inv(m, g) && Quiet(g, m.shared)
    ensures Table(d, i0) in g.edges <==>
      d in g.live + {m.shared} && i0 < 1024 && (d == m.shared <==> !UserDir(i0)) && Present(Pde(m.frames, d, i0))
    ensures Table(d, i0) in g.edges ==> FrameOf(Pde(m.frames, d, i0)) == g.edges[Table(d, i0)]
  {
    if Table(d, i0) in g.edges {
      assert Dir(d) in g.edges;
    }
    if d in g.live + {m.shared} && i0 < 1024 && (d == m.shared <==> !UserDir(i0)) {
      assert DirEntryOk(Pde(m.frames, d, i0), g.edges, Table(d, i0));
    }
  }

  /** A frame that two pages map, in one space or in two, is writable through neither. */
  lemma SharedIsReadOnly(m: Mem, g: Shadow, d: nat, p: VPage, d': nat, p': VPage)
    requires Inv(m, g) && d in g.live && d' in g.live && UserPage(p) && UserPage(p')
    requires Present(Walk(m.frames, d, p)) && Present(Walk(m.frames, d', p'))
    requires FrameOf(Walk(m.frames, d, p)) == FrameOf(Walk(m.frames, d', p'))
    requires !(d == d' && p == p')
    ensures !Writable(Walk(m.frames, d, p)) && !Writable(Walk(m.frames, d', p'))
  {
    WalkFinds(m, g, d, p);
    WalkFinds(m, g, d', p');
  }

  /** The frames handed out so far are the free list, without repetition, and the referenced ones. */
  lemma PoolPartition(m: Mem, g: Shadow, f: nat)
    requires Inv(m, g) && g.start <= f < m.limit
    ensures f < m.avail ==> (f in g.free <==> m.refs[f] == 0)
    ensures f >= m.avail ==> f !in g.free && m.refs[f] == 0
    ensures m.firstFree == Link(g.free, 0)
    ensures forall i, j :: 0 <= i < j < |g.free| ==> g.free[i] != g.free[j]
  {
    if f >= m.avail {
      assert Holders(g.edges, f) == {};
    }
  }

  /** The frames of the pool that nothing refers to. */
  ghost function Idle(m: Mem, start: nat): set<nat> {
    set f | start <= f < |m.refs| && m.refs[f] == 0
  }

  /** They are as many as can still be handed out. */
  lemma SpareIs(m: Mem, g: Shadow)
    requires Inv(m, g)
    ensures |Idle(m, g.start)| == |g.free| + m.limit - m.avail
  {
    hide Inv, Idle;
    SpareFrames(m, g);
    IdleIs(m, g, Elements(g.free), Interval(m.avail, m.limit));
  }

  lemma IdleIs(m: Mem, g: Shadow, listed: set<nat>, unused: set<nat>)
    requires g.start <= m.avail <= m.limit == |m.refs|
    requires (forall f :: f in listed <==> f in g.free) && forall f :: f in unused <==> m.avail <= f < m.limit
    requires forall f :: f in g.free ==> g.start <= f < m.avail
    requires forall f :: g.start <= f < m.limit ==> (m.refs[f] == 0 <==> f in g.free || m.avail <= f)
    ensures |Idle(m, g.start)| == |listed| + |unused|
  {
    assert Idle(m, g.start) == listed + unused;
    assert listed * unused == {};
  }

  lemma SpareFrames(m: Mem, g: Shadow)
    requires Inv(m, g)
    ensures g.start <= m.avail <= m.limit == |m.refs| && forall i, j :: 0 <= i < j < |g.free| ==> g.free[i] != g.free[j]
    ensures forall f :: f in g.free ==> g.start <= f < m.avail
    ensures forall f :: g.start <= f < m.limit ==> (m.refs[f] == 0 <==> f in g.free || m.avail <= f)
  {
    hide CountsOk, UniqueOk, TreeOk, MapsOk, CowOk, KernelOk;
    forall f | g.start <= f < m.limit ensures m.refs[f] == 0 <==> f in g.free || m.avail <= f {
      PoolPartition(m, g, f);
    }
  }

  ghost function Elements(l: seq<nat>): (s: set<nat>)
    requires forall i, j :: 0 <= i < j < |l| ==> l[i] != l[j]
    ensures |s| == |l| && forall f :: f in s <==> f in l
    decreases |l|
  {
    if l == [] then {}
    else
      assert l == [l[0]] + l[1..] && l[0] !in l[1..];
      Elements(l[1..]) + {l[0]}
  }

  ghost function Interval(lo: nat, hi: nat): (s: set<nat>)
    requires lo <= hi
    ensures |s| == hi - lo && forall f: nat :: f in s <==> lo <= f < hi
    decreases hi
  {
    if lo == hi then {} else Interval(lo, hi - 1) + {hi - 1}
  }

  /** The same references mean the same counts, whatever happened to the free list in between. */
  lemma SameEdgesSameCounts(m: Mem, g: Shadow, m': Mem, g': Shadow)
    requires Inv(m, g) && Inv(m', g') && m'.limit == m.limit && g'.edges == g.edges
    ensures m'.refs == m.refs
  {
  }

  // ---- counts fit the 32-bit words that hold them

  /** A number for each reference, different for different references. */
  ghost function Code(e: map<Use, nat>, u: Use): nat {
    match u
    case Dir(d) => d
    case Table(d, i0) => NUM_FRAMES + 1024 * d + i0
    case Leaf(d, p) =>
      NUM_FRAMES + 1024 * NUM_FRAMES + (if Table(d, p.i0) in e then 1024 * e[Table(d, p.i0)] + p.i1 else 0)
    case Held(_) => 0
  }

  const MAX_REFS: nat := NUM_FRAMES + 2 * 1024 * NUM_FRAMES

  lemma CodeBound(m: Mem, g: Shadow, u: Use)
    requires Inv(m, g) && Quiet(g, m.shared) && u in g.edges
    ensures Code(g.edges, u) < MAX_REFS
    ensures u.Dir? ==> Code(g.edges, u) < NUM_FRAMES
    ensures u.Table? ==> NUM_FRAMES <= Code(g.edges, u) < NUM_FRAMES + 1024 * NUM_FRAMES
    ensures u.Table? ==> u.i0 < 1024
    ensures u.Leaf? ==> NUM_FRAMES + 1024 * NUM_FRAMES <= Code(g.edges, u) && u.p.i1 < 1024
    ensures u.Leaf? ==> Table(u.d, u.p.i0) in g.edges
  {
    match u
    case Dir(d) => assert g.edges[Dir(d)] == d;
    case Table(d, i0) => assert Dir(d) in g.edges && g.edges[Dir(d)] == d; TableUse(m, g, d, i0);
    case Leaf(d, p) => assert g.edges[Table(d, p.i0)] < m.limit;
  }

  lemma CodeInjective(m: Mem, g: Shadow, u: Use, v: Use)
    requires Inv(m, g) && Quiet(g, m.shared) && u in g.edges && v in g.edges
    requires Code(g.edges, u) == Code(g.edges, v)
    ensures u == v
  {
    hide FreeOk, CountsOk, RangeOk, TreeOk, MapsOk, CowOk, KernelOk;
    CodeBound(m, g, u);
    CodeBound(m, g, v);
    if u.Leaf? {
      var t, t' := Table(u.d, u.p.i0), Table(v.d, v.p.i0);
      Digits(g.edges[t], u.p.i1, g.edges[t'], v.p.i1);
      OneTable(g.edges, t, t');
      assert u.p == v.p;
    } else if u.Table? {
      Digits(u.d, u.i0, v.d, v.i0);
    }
  }

  lemma Digits(a: nat, i: nat, b: nat, j: nat)
    requires i < 1024 && j < 1024 && 1024 * a + i == 1024 * b + j
    ensures a == b && i == j
  {
  }

  lemma OneTable(e: map<Use, nat>, t: Use, t': Use)
    requires UniqueOk(e) && t.Table? && t in e && t' in e && e[t] == e[t']
    ensures t == t'
  {
  }

  lemma {:induction false} CountCodes(m: Mem, g: Shadow, s: set<Use>, n: nat)
    requires Inv(m, g) && Quiet(g, m.shared) && (forall u :: u in s ==> u in g.edges)
    requires forall u :: u in s ==> Code(g.edges, u) < n
    ensures |s| <= n
  {
    if n == 0 {
      assert s == {};
    } else if u :| u in s && Code(g.edges, u) == n - 1 {
      forall v | v in s - {u} ensures Code(g.edges, v) < n - 1 {
        if Code(g.edges, v) == n - 1 {
          CodeInjective(m, g, u, v);
        }
      }
      CountCodes(m, g, s - {u}, n - 1);
    } else {
      CountCodes(m, g, s, n - 1);
    }
  }

  /** However many address spaces share a frame, its count cannot wrap around. */
  lemma RefsFit(m: Mem, g: Shadow, f: nat)
    requires Inv(m, g) && Quiet(g, m.shared) && f < m.limit
    ensures m.refs[f] <= MAX_REFS < 0x1_0000_0000
  {
    var s := Holders(g.edges, f);
    forall u | u in s ensures Code(g.edges, u) < MAX_REFS {
      CodeBound(m, g, u);
    }
    CountCodes(m, g, s, MAX_REFS);
  }

  // ---- the kernel part, which every directory shares

  predicate KernelPage(q: VPage) { q.i0 < 1024 && !UserDir(q.i0) && q.i1 < 1024 }

  /** The kernel's page tables are frames of their own. */
  lemma KernelTable(m: Mem, g: Shadow, i0: nat)
    requires Inv(m, g) && i0 < 1024 && !UserDir(i0) && Present(Pde(m.frames, m.shared, i0))
    ensures var t := FrameOf(Pde(m.frames, m.shared, i0));
      && Table(m.shared, i0) in g.edges && g.edges[Table(m.shared, i0)] == t < m.limit && t != m.shared
      && (CanAlloc(m) ==> t != NextFrame(m))
      && forall j :: 0 <= j < 1024 && !UserDir(j) && j != i0 && Present(Pde(m.frames, m.shared, j)) ==>
           FrameOf(Pde(m.frames, m.shared, j)) != t
  {
    hide FreeOk, CountsOk, MapsOk, CowOk;
    assert DirEntryOk(Pde(m.frames, m.shared, i0), g.edges, Table(m.shared, i0));
    if CanAlloc(m) { NextFrameFree(m, g); }
    forall j | 0 <= j < 1024 && !UserDir(j) && j != i0 && Present(Pde(m.frames, m.shared, j))
      ensures FrameOf(Pde(m.frames, m.shared, j)) != FrameOf(Pde(m.frames, m.shared, i0))
    {
      assert DirEntryOk(Pde(m.frames, m.shared, j), g.edges, Table(m.shared, j));
    }
  }

  /** A fresh kernel table maps nothing, and changes no other mapping. */
  lemma TableMadeWalk(m: Mem, g: Shadow, m': Mem, i0: nat, t: nat, q: VPage)
    requires Inv(m, g) && TableMade(m, m', m.shared, i0, t) && Table(m.shared, i0) !in g.edges
    requires i0 < 1024 && !UserDir(i0) && KernelPage(q)
    ensures Walk(m'.frames, m.shared, q) == Walk(m.frames, m.shared, q)
  {
    hide FreeOk, CountsOk, RangeOk, UniqueOk, TreeOk, MapsOk, CowOk;
    NextFrameFree(m, g);
    SharedFrame(m, g);
    assert DirEntryOk(Pde(m.frames, m.shared, i0), g.edges, Table(m.shared, i0));
    if q.i0 != i0 && Present(Pde(m.frames, m.shared, q.i0)) {
      KernelTable(m, g, q.i0);
    }
  }

  lemma SharedFrame(m: Mem, g: Shadow)
    requires Inv(m, g)
    ensures m.shared < m.limit == |m.frames| && (CanAlloc(m) ==> m.shared != NextFrame(m))
  {
    hide FreeOk, CountsOk, MapsOk, CowOk;
    if CanAlloc(m) { NextFrameFree(m, g); }
    assert g.edges[Dir(m.shared)] == m.shared;
  }

  /** Writing one word of the table at i0 changes one mapping. */
  lemma EntrySetWalk(m: Mem, g: Shadow, i0: nat, i1: nat, w: Word, q: VPage)
    requires Inv(m, g) && i0 < 1024 && !UserDir(i0) && i1 < 1024 && KernelPage(q) && Table(m.shared, i0) in g.edges
    ensures var t := g.edges[Table(m.shared, i0)];
      && t < |m.frames|
      && Walk(SetWord(m.frames, t, i1, w), m.shared, q) ==
           if q == VPage(i0, i1) then w else Walk(m.frames, m.shared, q)
  {
    hide FreeOk, CountsOk, RangeOk, UniqueOk, TreeOk, MapsOk, CowOk;
    assert DirEntryOk(Pde(m.frames, m.shared, i0), g.edges, Table(m.shared, i0));
    KernelTable(m, g, i0);
  }

  // ---- as the processor reads words and addresses

  /** Bit 0 is P, bit 1 W, bit 2 U, and the frame number starts at bit 12. */
  lemma WordBits(f: nat, p: bool, w: bool, u: bool)
    requires f < 0x10_0000
    ensures var x: Word := 4096 * f + (if p then 1 else 0) + (if w then 2 else 0) + (if u then 4 else 0);
      FrameOf(x) == f && Present(x) == p && Writable(x) == w && ForUser(x) == u && (p ==> x == Entry(f, u, w))
  {
    LastBit(2048 * f + (if w then 1 else 0) + (if u then 2 else 0), p);
    LastBit(1024 * f + (if u then 1 else 0), w);
    LastBit(512 * f, u);
    Quarters(4096 * f + (if p then 1 else 0) + (if w then 2 else 0) + (if u then 4 else 0));
    assert (1024 * f + (if u then 1 else 0)) / 1024 == f;
  }

  lemma LastBit(y: nat, bit: bool)
    ensures var x := 2 * y + (if bit then 1 else 0); x / 2 == y && (x % 2 == 1 <==> bit)
  {
  }

  lemma Quarters(x: nat)
    ensures x / 4 == x / 2 / 2 && x / 4096 == x / 4 / 1024
  {
  }

  /** 10 bits of directory index, 10 bits of table index, 12 bits of offset; user addresses are one range. */
  lemma AddressBits(i0: nat, i1: nat, offset: nat)
    requires i0 < 1024 && i1 < 1024 && offset < 4096
    ensures var va: Word := 0x40_0000 * i0 + 0x1000 * i1 + offset;
      && PageOf(va) == VPage(i0, i1) && WordOf(va) == offset / 4
      && (UserPage(PageOf(va)) <==> 0x8000_0000 <= va < 0xF000_0000)
  {
    var va: Word := 0x40_0000 * i0 + 0x1000 * i1 + offset;
    assert va / 4096 == 1024 * i0 + i1 && va / 0x40_0000 == i0;
  }
}
