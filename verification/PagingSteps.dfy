/**
  Each elementary change that the kernel makes to the frame pool or to a page
  table keeps the invariant, and what it does to the pages that user address
  spaces see.
*/
module PagingSteps {
  import opened Paging

  // ---- counting references

  lemma HoldersAdd(e: map<Use, nat>, u: Use, f: nat)
    requires u !in e
    ensures |Holders(e[u := f], f)| == |Holders(e, f)| + 1
    ensures forall f' :: f' != f ==> Holders(e[u := f], f') == Holders(e, f')
  {
    assert Holders(e[u := f], f) == Holders(e, f) + {u};
  }

  lemma HoldersDrop(e: map<Use, nat>, u: Use)
    requires u in e
    ensures |Holders(e - {u}, e[u])| == |Holders(e, e[u])| - 1
    ensures forall f :: f != e[u] ==> Holders(e - {u}, f) == Holders(e, f)
  {
    assert Holders(e, e[u]) == Holders(e - {u}, e[u]) + {u};
    assert u !in Holders(e - {u}, e[u]);
  }

  lemma CountsAdd(refs: seq<nat>, e: map<Use, nat>, u: Use, f: nat)
    requires CountsOk(refs, e) && u !in e && f < |refs|
    ensures CountsOk(refs[f := refs[f] + 1], e[u := f])
  {
    HoldersAdd(e, u, f);
  }

  lemma CountsDrop(refs: seq<nat>, e: map<Use, nat>, u: Use)
    requires CountsOk(refs, e) && u in e && e[u] < |refs|
    ensures refs[e[u]] > 0
    ensures CountsOk(refs[e[u] := refs[e[u]] - 1], e - {u})
  {
    HoldersDrop(e, u);
    assert u in Holders(e, e[u]);
  }

  /** A reference passed from one holder to another leaves every count alone. */
  function Pass(e: map<Use, nat>, u: Use, v: Use): map<Use, nat>
    requires u in e
  {
    (e - {u})[v := e[u]]
  }

  lemma CountsPass(refs: seq<nat>, e: map<Use, nat>, u: Use, v: Use)
    requires CountsOk(refs, e) && u in e && v !in e && e[u] < |refs|
    ensures CountsOk(refs, Pass(e, u, v))
  {
    CountsDrop(refs, e, u);
    CountsAdd(refs[e[u] := refs[e[u]] - 1], e - {u}, v, e[u]);
    assert refs[e[u] := refs[e[u]] - 1][e[u] := refs[e[u]]] == refs;
  }

  /** A reference makes its frame's count positive; it is 1 exactly when nothing else refers to it. */
  lemma {:induction false} SoleIsOne(refs: seq<nat>, e: map<Use, nat>, u: Use)
    requires CountsOk(refs, e) && u in e && e[u] < |refs|
    ensures refs[e[u]] > 0
    ensures refs[e[u]] == 1 <==> Sole(e, u)
  {
    var h := Holders(e, e[u]);
    assert u in h;
    if Sole(e, u) {
      assert h == {u};
    } else {
      var v :| v in e && e[v] == e[u] && v != u;
      assert {u, v} <= h;
      assert |h - {u, v}| == |h| - |{u, v}|;
    }
  }

  lemma CountZero(refs: seq<nat>, e: map<Use, nat>, f: nat)
    requires CountsOk(refs, e) && f < |refs| && refs[f] == 0
    ensures forall u :: u in e ==> e[u] != f
  {
    forall u | u in e ensures e[u] != f {
      assert e[u] == f ==> u in Holders(e, f);
    }
  }

  // ---- frames that nothing refers to may change freely

  ghost predicate SameFrames(frames: seq<Page>, frames': seq<Page>, e: map<Use, nat>) {
    && |frames| == |frames'|
    && (forall u :: u in e && e[u] < |frames| ==> frames'[e[u]] == frames[e[u]])
  }

  lemma FramesKeep(frames: seq<Page>, frames': seq<Page>, shared: nat, e: map<Use, nat>, live: set<nat>)
    requires SameFrames(frames, frames', e)
    requires TreeOk(e, live) && MapsOk(frames, e, live) && CowOk(frames, e, live)
    requires KernelOk(frames, shared, e, live)
    ensures MapsOk(frames', e, live) && CowOk(frames', e, live)
    ensures KernelOk(frames', shared, e, live)
    ensures forall d, p :: View(frames', e, d, p) == View(frames, e, d, p)
  {
    assert forall d, i0 :: Dir(d) in e ==> Pde(frames', d, i0) == Pde(frames, d, i0) by {
      forall d, i0 | Dir(d) in e ensures Pde(frames', d, i0) == Pde(frames, d, i0) {
        assert e[Dir(d)] == d;
      }
    }
    assert forall d, p :: Pte(frames', e, d, p) == Pte(frames, e, d, p);
  }

  // ---- taking a frame from the pool

  function AllocShadow(m: Mem, g: Shadow, k: nat): Shadow {
    g.(edges := g.edges[Held(k) := NextFrame(m)],
       free := if |g.free| > 0 then g.free[1..] else g.free)
  }

  lemma NextFrameFree(m: Mem, g: Shadow)
    requires Inv(m, g) && CanAlloc(m)
    ensures NextFrame(m) < m.limit && m.refs[NextFrame(m)] == 0
    ensures g.start <= NextFrame(m) && (m.firstFree != 0 <==> |g.free| > 0)
    ensures |g.free| > 0 ==> NextFrame(m) == g.free[0]
    ensures forall u :: u in g.edges ==> g.edges[u] != NextFrame(m)
  {
    if m.firstFree == 0 {
      assert |g.free| == 0;
      var f := NextFrame(m);
      assert forall u :: u in g.edges ==> g.edges[u] != f;
      assert Holders(g.edges, f) == {};
    } else {
      assert g.free[0] in g.free;
      CountZero(m.refs, g.edges, g.free[0]);
    }
  }

  lemma AllocFree(m: Mem, g: Shadow, k: nat)
    requires Inv(m, g) && CanAlloc(m)
    requires NextFrame(m) < m.limit && m.refs[NextFrame(m)] == 0
    requires m.firstFree != 0 <==> |g.free| > 0
    requires |g.free| > 0 ==> NextFrame(m) == g.free[0]
    ensures var m' := AllocMem(m); var g' := AllocShadow(m, g, k);
      FreeOk(m'.frames, m'.firstFree, m'.avail, g'.free, g'.start) && g.start <= m'.avail <= m.limit
  {
    var m', g' := AllocMem(m), AllocShadow(m, g, k);
    if |g.free| > 0 {
      assert forall i :: 0 <= i < |g'.free| ==> g'.free[i] == g.free[i + 1];
      assert m.frames[g.free[0]][0] == Link(g.free, 1);
      forall i | 0 <= i < |g'.free| && g'.free[i] < |m'.frames|
        ensures m'.frames[g'.free[i]][0] == Link(g'.free, i + 1)
      {
        assert m.frames[g.free[i + 1]][0] == Link(g.free, i + 2);
      }
    }
  }

  lemma AllocRange(m: Mem, g: Shadow, k: nat)
    requires Inv(m, g) && CanAlloc(m) && Held(k) !in g.edges
    requires NextFrame(m) < m.limit && m.refs[NextFrame(m)] == 0 && g.start <= NextFrame(m)
    requires m.firstFree != 0 <==> |g.free| > 0
    requires |g.free| > 0 ==> NextFrame(m) == g.free[0]
    ensures var m' := AllocMem(m); var g' := AllocShadow(m, g, k);
      RangeOk(m'.refs, m'.avail, g'.edges, g'.free, g'.start)
  {
    var m', g', f := AllocMem(m), AllocShadow(m, g, k), NextFrame(m);
    if |g.free| > 0 {
      assert g.free == [f] + g'.free;
      assert f !in g'.free;
    }
    forall x | g.start <= x < m'.avail && x < |m'.refs|
      ensures x in g'.free <==> m'.refs[x] == 0
    {
      if x != f {
        assert x in g.free <==> x in g'.free;
      } else if |g.free| == 0 {
        assert x !in g.free;
      }
    }
  }

  /**
    VMM::alloc hands out a frame nobody refers to, with one reference, zeroed,
    and no address space sees a difference.
  */
  lemma AllocHold(m: Mem, g: Shadow, k: nat)
    requires Inv(m, g) && CanAlloc(m) && Held(k) !in g.edges
    ensures NextFrame(m) < m.limit && m.refs[NextFrame(m)] == 0
    ensures var m' := AllocMem(m); var g' := AllocShadow(m, g, k); var f := NextFrame(m);
      && Inv(m', g') && Sole(g'.edges, Held(k)) && m'.frames[f] == ZeroPage() && m'.refs[f] == 1
      && (forall d, p :: View(m'.frames, g'.edges, d, p) == View(m.frames, g.edges, d, p))
  {
    NextFrameFree(m, g);
    AllocFree(m, g, k);
    AllocRange(m, g, k);
    var m', g', f := AllocMem(m), AllocShadow(m, g, k), NextFrame(m);
    CountsAdd(m.refs, g.edges, Held(k), f);
    FramesKeep(m.frames, m'.frames, m.shared, g.edges, g.live);
    HoldKeeps(m'.frames, m.shared, g.edges, g.live, k, f);
  }

  /** A reference held by the kernel to a frame that no live page can write changes no table. */
  lemma HoldKeeps(frames: seq<Page>, shared: nat, e: map<Use, nat>, live: set<nat>, k: nat, f: nat)
    requires TreeOk(e, live) && MapsOk(frames, e, live) && CowOk(frames, e, live)
    requires KernelOk(frames, shared, e, live) && UniqueOk(e)
    requires forall u :: u in e && e[u] == f ==>
      Sharable(u) && (u.Leaf? && u.d in live ==> !Writable(Pte(frames, e, u.d, u.p)))
    requires Held(k) !in e
    ensures var e' := e[Held(k) := f];
      && TreeOk(e', live) && MapsOk(frames, e', live) && CowOk(frames, e', live)
      && KernelOk(frames, shared, e', live) && UniqueOk(e')
      && (forall d, p :: View(frames, e', d, p) == View(frames, e, d, p))
  {
    var e' := e[Held(k) := f];
    assert forall d, p :: Pte(frames, e', d, p) == Pte(frames, e, d, p);
    assert forall d, p :: d in live && UserPage(p) ==>
        EntryOk(Pte(frames, e', d, p), e', Leaf(d, p)) by {
      forall d, p | d in live && UserPage(p)
        ensures EntryOk(Pte(frames, e', d, p), e', Leaf(d, p)) {
        assert EntryOk(Pte(frames, e, d, p), e, Leaf(d, p));
      }
    }
  }

  /** All pages on a frame that some page maps read-only are read-only. */
  lemma ReadOnlyFrame(m: Mem, g: Shadow, u: Use)
    requires UniqueOk(g.edges) && CowOk(m.frames, g.edges, g.live)
    requires u in g.edges && u.Leaf? && u.d in g.live && !Writable(Pte(m.frames, g.edges, u.d, u.p))
    ensures forall v :: v in g.edges && g.edges[v] == g.edges[u] ==>
      Sharable(v) && (v.Leaf? && v.d in g.live ==> !Writable(Pte(m.frames, g.edges, v.d, v.p)))
  {
    forall v | v in g.edges && g.edges[v] == g.edges[u] && v != u
      ensures Sharable(v) && (v.Leaf? && v.d in g.live ==> !Writable(Pte(m.frames, g.edges, v.d, v.p)))
    {
      assert Sharable(v);
      assert v.Leaf? ==> v == Leaf(v.d, v.p);
    }
  }

  /** VMMInfo::inc on a mapped frame, once no page mapping it is writable. */
  lemma Hold(m: Mem, g: Shadow, k: nat, u: Use)
    requires Inv(m, g) && Held(k) !in g.edges
    requires u in g.edges && u.Leaf? && u.d in g.live && !Writable(Pte(m.frames, g.edges, u.d, u.p))
    ensures g.edges[u] < |m.refs|
    ensures var f := g.edges[u];
      var m' := m.(refs := m.refs[f := m.refs[f] + 1]);
      var g' := g.(edges := g.edges[Held(k) := f]);
      && Inv(m', g')
      && (forall d, p :: View(m.frames, g'.edges, d, p) == View(m.frames, g.edges, d, p))
  {
    var f := g.edges[u];
    CountsAdd(m.refs, g.edges, Held(k), f);
    SoleIsOne(m.refs, g.edges, u);
    ReadOnlyFrame(m, g, u);
    HoldKeeps(m.frames, m.shared, g.edges, g.live, k, f);
  }

  // ---- writing one word of a page table or directory

  /** A referenced frame is not on the free list, so its words are not links. */
  lemma FreeKeeps(m: Mem, g: Shadow, frames': seq<Page>, f: nat)
    requires Inv(m, g) && f < |m.frames| && m.refs[f] > 0
    requires |frames'| == |m.frames| && (forall x :: 0 <= x < |frames'| && x != f ==> frames'[x] == m.frames[x])
    ensures FreeOk(frames', m.firstFree, m.avail, g.free, g.start)
  {
    forall i | 0 <= i < |g.free| ensures frames'[g.free[i]] == m.frames[g.free[i]] {
      assert g.free[i] in g.free;
    }
  }

  ghost predicate SameViews(frames: seq<Page>, frames': seq<Page>, e: map<Use, nat>) {
    forall u :: u in e && u.Leaf? && e[u] < |frames| ==> e[u] < |frames'| && frames'[e[u]] == frames[e[u]]
  }

  /** The kernel part stays as it is when its words and its tables do. */
  lemma KernelKeeps(frames: seq<Page>, frames': seq<Page>, shared: nat, e: map<Use, nat>, e': map<Use, nat>,
                    live: set<nat>)
    requires KernelOk(frames, shared, e, live) && TreeOk(e, live) && Dir(shared) in e'
    requires forall d, i0 :: Dir(d) in e && (d == shared || !UserDir(i0)) ==>
      Pde(frames', d, i0) == Pde(frames, d, i0)
    requires forall i0 :: Table(shared, i0) in e <==> Table(shared, i0) in e'
    requires forall i0 :: Table(shared, i0) in e ==> e'[Table(shared, i0)] == e[Table(shared, i0)]
    ensures KernelOk(frames', shared, e', live)
  {
  }

  /** Writing into a page table changes no other frame that is referred to. */
  lemma TableFrame(m: Mem, g: Shadow, d: nat, p: VPage, x: Word)
    requires Inv(m, g) && p.i1 < 1024 && Table(d, p.i0) in g.edges
    ensures g.edges[Table(d, p.i0)] < |m.frames|
    ensures var frames' := SetWord(m.frames, g.edges[Table(d, p.i0)], p.i1, x);
      && FreeOk(frames', m.firstFree, m.avail, g.free, g.start)
      && (forall u :: u in g.edges && u != Table(d, p.i0) && g.edges[u] < |m.frames| ==>
            frames'[g.edges[u]] == m.frames[g.edges[u]])
  {
    var t := g.edges[Table(d, p.i0)];
    SoleIsOne(m.refs, g.edges, Table(d, p.i0));
    FreeKeeps(m, g, SetWord(m.frames, t, p.i1, x), t);
    forall u | u in g.edges && u != Table(d, p.i0) ensures g.edges[u] != t {
      assert !Sharable(Table(d, p.i0));
    }
  }

  /** Writing word x into the table that holds page p of space d changes that page's entry and nothing else. */
  lemma TableWord(m: Mem, g: Shadow, d: nat, p: VPage, x: Word)
    requires Inv(m, g) && d in g.live && UserPage(p) && Table(d, p.i0) in g.edges
    ensures g.edges[Table(d, p.i0)] < |m.frames|
    ensures var t := g.edges[Table(d, p.i0)]; var frames' := SetWord(m.frames, t, p.i1, x);
      && FreeOk(frames', m.firstFree, m.avail, g.free, g.start)
      && (forall d', i0 :: Dir(d') in g.edges ==> Pde(frames', d', i0) == Pde(m.frames, d', i0))
      && (forall d', p' :: Pte(frames', g.edges, d', p') ==
            if d' == d && p' == p then x else Pte(m.frames, g.edges, d', p'))
      && SameViews(m.frames, frames', g.edges)
      && KernelOk(frames', m.shared, g.edges, g.live)
  {
    var e := g.edges;
    TableFrame(m, g, d, p, x);
    var t := e[Table(d, p.i0)];
    var frames' := SetWord(m.frames, t, p.i1, x);
    forall d', p' ensures Pte(frames', e, d', p') ==
        if d' == d && p' == p then x else Pte(m.frames, e, d', p')
    {
      if Table(d', p'.i0) == Table(d, p.i0) {
        assert p'.i1 == p.i1 ==> p' == p;
      }
    }
    DirsSame(m.frames, frames', e, g.live, Table(d, p.i0));
    KernelKeeps(m.frames, frames', m.shared, e, e, g.live);
  }

  lemma DirsSame(frames: seq<Page>, frames': seq<Page>, e: map<Use, nat>, live: set<nat>, t: Use)
    requires TreeOk(e, live) && t.Table? && |frames'| == |frames|
    requires forall u :: u in e && u != t && e[u] < |frames| ==> frames'[e[u]] == frames[e[u]]
    ensures forall d, i0 :: Dir(d) in e ==> Pde(frames', d, i0) == Pde(frames, d, i0)
  {
    forall d, i0 | Dir(d) in e ensures Pde(frames', d, i0) == Pde(frames, d, i0) {
      assert e[Dir(d)] == d;
    }
  }

  lemma ViewsSame(frames: seq<Page>, frames': seq<Page>, e: map<Use, nat>)
    requires SameViews(frames, frames', e) && |frames| == |frames'|
    ensures forall d, p :: View(frames', e, d, p) == View(frames, e, d, p)
  {
    forall d, p ensures View(frames', e, d, p) == View(frames, e, d, p) {
      if Leaf(d, p) in e && e[Leaf(d, p)] < |frames| {
        assert Leaf(d, p).Leaf?;
      }
    }
  }

  /** Setting or clearing W on a mapped page; setting it needs the page to be unshared. */
  lemma ChangeWrite(m: Mem, g: Shadow, d: nat, p: VPage, x: Word)
    requires Inv(m, g) && d in g.live && Leaf(d, p) in g.edges
    requires var w := Pte(m.frames, g.edges, d, p);
      Present(x) == Present(w) && FrameOf(x) == FrameOf(w) && ForUser(x) == ForUser(w)
    requires Writable(x) ==> Sole(g.edges, Leaf(d, p))
    ensures Table(d, p.i0) in g.edges && g.edges[Table(d, p.i0)] < |m.frames| && p.i1 < 1024
    ensures var m' := m.(frames := SetWord(m.frames, g.edges[Table(d, p.i0)], p.i1, x));
      && Inv(m', g) && Pte(m'.frames, g.edges, d, p) == x
      && (forall d, p :: View(m'.frames, g.edges, d, p) == View(m.frames, g.edges, d, p))
  {
    TableWord(m, g, d, p, x);
    var frames' := SetWord(m.frames, g.edges[Table(d, p.i0)], p.i1, x);
    ViewsSame(m.frames, frames', g.edges);
    forall d', p' | d' in g.live && UserPage(p')
      ensures EntryOk(Pte(frames', g.edges, d', p'), g.edges, Leaf(d', p'))
    {
      assert EntryOk(Pte(m.frames, g.edges, d', p'), g.edges, Leaf(d', p'));
    }
  }

  // ---- turning a held frame into a page, a page table or a directory

  function PassTo(g: Shadow, u: Use, v: Use): Shadow
    requires u in g.edges
  {
    g.(edges := Pass(g.edges, u, v))
  }

  /** Both tables agree apart from page p of space d and from references in hand. */
  ghost predicate SameBut(e: map<Use, nat>, e': map<Use, nat>, d: nat, p: VPage) {
    forall u: Use :: !u.Held? && u != Leaf(d, p) ==>
      (u in e <==> u in e') && (u in e ==> e'[u] == e[u])
  }

  lemma EntryMaps(m: Mem, g: Shadow, e': map<Use, nat>, d: nat, p: VPage, x: Word)
    requires Inv(m, g) && d in g.live && UserPage(p) && Table(d, p.i0) in g.edges
    requires SameBut(g.edges, e', d, p) && EntryOk(x, e', Leaf(d, p))
    ensures g.edges[Table(d, p.i0)] < |m.frames|
    ensures var frames' := SetWord(m.frames, g.edges[Table(d, p.i0)], p.i1, x);
      && MapsOk(frames', e', g.live)
      && (forall d', p' :: Pte(frames', e', d', p') == Pte(frames', g.edges, d', p'))
  {
    TableWord(m, g, d, p, x);
    var e := g.edges;
    var frames' := SetWord(m.frames, e[Table(d, p.i0)], p.i1, x);
    forall d', p' | d' in g.live && UserPage(p')
      ensures EntryOk(Pte(frames', e', d', p'), e', Leaf(d', p'))
    {
      assert EntryOk(Pte(m.frames, e, d', p'), e, Leaf(d', p'));
    }
    forall d', i0 | d' in g.live && UserDir(i0)
      ensures DirEntryOk(Pde(frames', d', i0), e', Table(d', i0))
    {
      assert DirEntryOk(Pde(m.frames, d', i0), e, Table(d', i0));
    }
  }

  lemma EntryTree(m: Mem, g: Shadow, e': map<Use, nat>, d: nat, p: VPage, x: Word)
    requires Inv(m, g) && d in g.live && UserPage(p) && Table(d, p.i0) in g.edges
    requires SameBut(g.edges, e', d, p)
    ensures TreeOk(e', g.live)
    ensures g.edges[Table(d, p.i0)] < |m.frames|
    ensures var frames' := SetWord(m.frames, g.edges[Table(d, p.i0)], p.i1, x);
      KernelOk(frames', m.shared, e', g.live) && FreeOk(frames', m.firstFree, m.avail, g.free, g.start)
  {
    TableWord(m, g, d, p, x);
  }

  lemma EntryViews(m: Mem, g: Shadow, e': map<Use, nat>, d: nat, p: VPage, x: Word)
    requires Inv(m, g) && d in g.live && UserPage(p) && Table(d, p.i0) in g.edges
    requires SameBut(g.edges, e', d, p)
    ensures g.edges[Table(d, p.i0)] < |m.frames|
    ensures var frames' := SetWord(m.frames, g.edges[Table(d, p.i0)], p.i1, x);
      && (forall d', p' :: !(d' == d && p' == p) ==>
            View(frames', e', d', p') == View(m.frames, g.edges, d', p'))
      && (forall u :: u in g.edges && Sharable(u) && g.edges[u] < |m.frames| ==>
            frames'[g.edges[u]] == m.frames[g.edges[u]])
      && Pte(frames', e', d, p) == x
  {
    TableWord(m, g, d, p, x);
    TableFrame(m, g, d, p, x);
    ViewsSame(m.frames, SetWord(m.frames, g.edges[Table(d, p.i0)], p.i1, x), g.edges);
  }

  /** Passing a reference on keeps counts, ranges and the rule that only pages are shared. */
  lemma PassKeeps(m: Mem, g: Shadow, u: Use, v: Use)
    requires Shape(m, g) && CountsOk(m.refs, g.edges) && RangeOk(m.refs, m.avail, g.edges, g.free, g.start)
    requires UniqueOk(g.edges)
    requires u in g.edges && v !in g.edges
    requires Sharable(v) || Sole(g.edges, u)
    requires Sharable(u) || Sole(g.edges, u)
    ensures var g' := PassTo(g, u, v);
      CountsOk(m.refs, g'.edges) && RangeOk(m.refs, m.avail, g'.edges, g'.free, g'.start) && UniqueOk(g'.edges)
  {
    CountsPass(m.refs, g.edges, u, v);
    var e' := Pass(g.edges, u, v);
    forall x, y | x in e' && y in e' && e'[x] == e'[y] && x != y
      ensures Sharable(x) && Sharable(y)
    {
      var x0, y0 := if x == v then u else x, if y == v then u else y;
      assert x0 in g.edges && y0 in g.edges && g.edges[x0] == g.edges[y0];
    }
  }

  /** pmap of a held frame at an unmapped page of a space that has the page table. */
  lemma LinkLeaf(m: Mem, g: Shadow, k: nat, d: nat, p: VPage, write: bool)
    requires Inv(m, g) && Held(k) in g.edges && d in g.live && UserPage(p)
    requires Table(d, p.i0) in g.edges && Leaf(d, p) !in g.edges
    requires write ==> Sole(g.edges, Held(k))
    ensures g.edges[Table(d, p.i0)] < |m.frames| && g.edges[Held(k)] < |m.frames|
    ensures var f := g.edges[Held(k)];
      var m' := m.(frames := SetWord(m.frames, g.edges[Table(d, p.i0)], p.i1, Entry(f, true, write)));
      var g' := PassTo(g, Held(k), Leaf(d, p));
      && Inv(m', g') && m'.frames[f] == m.frames[f]
      && Writable(Pte(m'.frames, g'.edges, d, p)) == write
      && (forall d', p' :: View(m'.frames, g'.edges, d', p') ==
            if d' == d && p' == p then m.frames[f] else View(m.frames, g.edges, d', p'))
  {
    hide FreeOk, CountsOk, RangeOk, UniqueOk, TreeOk, MapsOk, CowOk, KernelOk;
    LinkLeafRange(m, g, k, d, p);
    var x := Entry(g.edges[Held(k)], true, write);
    var e' := Pass(g.edges, Held(k), Leaf(d, p));
    PassKeeps(m, g, Held(k), Leaf(d, p));
    EntryMaps(m, g, e', d, p, x);
    EntryTree(m, g, e', d, p, x);
    EntryViews(m, g, e', d, p, x);
    LinkLeafCow(m, g, k, d, p, write);
  }

  lemma LinkLeafRange(m: Mem, g: Shadow, k: nat, d: nat, p: VPage)
    requires Inv(m, g) && Held(k) in g.edges && Table(d, p.i0) in g.edges
    ensures g.edges[Table(d, p.i0)] < |m.frames| && g.edges[Held(k)] < |m.frames|
  {
  }

  lemma LinkLeafCow(m: Mem, g: Shadow, k: nat, d: nat, p: VPage, write: bool)
    requires Inv(m, g) && Held(k) in g.edges && d in g.live && UserPage(p)
    requires Table(d, p.i0) in g.edges && Leaf(d, p) !in g.edges
    requires write ==> Sole(g.edges, Held(k))
    ensures g.edges[Table(d, p.i0)] < |m.frames| && g.edges[Held(k)] < |m.frames|
    ensures var f := g.edges[Held(k)];
      CowOk(SetWord(m.frames, g.edges[Table(d, p.i0)], p.i1, Entry(f, true, write)),
            Pass(g.edges, Held(k), Leaf(d, p)), g.live)
  {
    var e := g.edges;
    var x := Entry(e[Held(k)], true, write);
    TableWord(m, g, d, p, x);
    var frames' := SetWord(m.frames, e[Table(d, p.i0)], p.i1, x);
    var e' := Pass(e, Held(k), Leaf(d, p));
    forall d', p' | d' in g.live && Leaf(d', p') in e' && Writable(Pte(frames', e', d', p'))
      ensures Sole(e', Leaf(d', p'))
    {
      assert Pte(frames', e', d', p') == Pte(frames', e, d', p');
      if d' == d && p' == p {
        assert Sole(e, Held(k));
      } else {
        assert Sole(e, Leaf(d', p'));
        assert e[Held(k)] != e[Leaf(d', p')];
      }
    }
  }

  /** Undo of LinkLeaf: the entry is cleared and its reference kept in hand. */
  lemma UnlinkLeaf(m: Mem, g: Shadow, k: nat, d: nat, p: VPage)
    requires Inv(m, g) && Held(k) !in g.edges && d in g.live && Leaf(d, p) in g.edges
    ensures Table(d, p.i0) in g.edges && g.edges[Table(d, p.i0)] < |m.frames| && p.i1 < 1024
    ensures g.edges[Leaf(d, p)] < |m.frames|
    ensures var m' := m.(frames := SetWord(m.frames, g.edges[Table(d, p.i0)], p.i1, 0));
      var g' := PassTo(g, Leaf(d, p), Held(k));
      && Inv(m', g')
      && (forall d', p' :: View(m'.frames, g'.edges, d', p') ==
            if d' == d && p' == p then ZeroPage() else View(m.frames, g.edges, d', p'))
  {
    hide FreeOk, CountsOk, RangeOk, UniqueOk, TreeOk, MapsOk, CowOk, KernelOk;
    UnlinkLeafRange(m, g, d, p);
    var e' := Pass(g.edges, Leaf(d, p), Held(k));
    PassKeeps(m, g, Leaf(d, p), Held(k));
    EntryMaps(m, g, e', d, p, 0);
    EntryTree(m, g, e', d, p, 0);
    EntryViews(m, g, e', d, p, 0);
    UnlinkLeafCow(m, g, k, d, p);
  }

  lemma UnlinkLeafRange(m: Mem, g: Shadow, d: nat, p: VPage)
    requires Inv(m, g) && Leaf(d, p) in g.edges
    ensures UserPage(p) && Table(d, p.i0) in g.edges
    ensures g.edges[Table(d, p.i0)] < |m.frames| && g.edges[Leaf(d, p)] < |m.frames|
  {
  }

  lemma UnlinkLeafCow(m: Mem, g: Shadow, k: nat, d: nat, p: VPage)
    requires Inv(m, g) && Held(k) !in g.edges && d in g.live && Leaf(d, p) in g.edges
    ensures Table(d, p.i0) in g.edges && g.edges[Table(d, p.i0)] < |m.frames| && p.i1 < 1024
    ensures CowOk(SetWord(m.frames, g.edges[Table(d, p.i0)], p.i1, 0),
                  Pass(g.edges, Leaf(d, p), Held(k)), g.live)
  {
    var e := g.edges;
    TableWord(m, g, d, p, 0);
    var frames' := SetWord(m.frames, e[Table(d, p.i0)], p.i1, 0);
    var e' := Pass(e, Leaf(d, p), Held(k));
    forall d', p' | d' in g.live && Leaf(d', p') in e' && Writable(Pte(frames', e', d', p'))
      ensures Sole(e', Leaf(d', p'))
    {
      assert Pte(frames', e', d', p') == Pte(frames', e, d', p');
      assert Sole(e, Leaf(d', p'));
      assert e[Leaf(d, p)] != e[Leaf(d', p')];
    }
  }

  /** getPTE's `pd[i0] = alloc() | 7`: a held, zeroed frame becomes an empty page table. */
  lemma LinkTable(m: Mem, g: Shadow, k: nat, d: nat, i0: nat)
    requires Inv(m, g) && Held(k) in g.edges && Sole(g.edges, Held(k))
    requires g.edges[Held(k)] < |m.frames| && m.frames[g.edges[Held(k)]] == ZeroPage()
    requires d in g.live && UserDir(i0) && Table(d, i0) !in g.edges
    ensures d < |m.frames| && i0 < 1024
    ensures var t := g.edges[Held(k)];
      var m' := m.(frames := SetWord(m.frames, d, i0, Entry(t, true, true)));
      var g' := PassTo(g, Held(k), Table(d, i0));
      && Inv(m', g')
      && (forall d, p :: View(m'.frames, g'.edges, d, p) == View(m.frames, g.edges, d, p))
  {
    hide FreeOk, CountsOk, RangeOk, UniqueOk, TreeOk, MapsOk, CowOk, KernelOk;
    LinkTableRange(m, g, k, d, i0);
    DirFrame(m, g, d);
    var x := Entry(g.edges[Held(k)], true, true);
    FreeKeeps(m, g, SetWord(m.frames, d, i0, x), d);
    PassKeeps(m, g, Held(k), Table(d, i0));
    LinkTableKernel(m, g, k, d, i0);
    LinkTableMaps(m, g, k, d, i0);
  }

  lemma DirFrame(m: Mem, g: Shadow, d: nat)
    requires Inv(m, g) && Dir(d) in g.edges
    ensures d < |m.frames| && m.refs[d] > 0
  {
    assert g.edges[Dir(d)] == d;
    SoleIsOne(m.refs, g.edges, Dir(d));
  }

  lemma LinkTableRange(m: Mem, g: Shadow, k: nat, d: nat, i0: nat)
    requires Inv(m, g) && Held(k) in g.edges && d in g.live && UserDir(i0)
    ensures Dir(d) in g.edges && g.edges[Held(k)] < |m.frames| && d != m.shared
  {
  }

  lemma LinkTableKernel(m: Mem, g: Shadow, k: nat, d: nat, i0: nat)
    requires Inv(m, g) && Held(k) in g.edges && Sole(g.edges, Held(k)) && d < |m.frames|
    requires g.edges[Held(k)] < |m.frames|
    requires d in g.live && UserDir(i0) && Table(d, i0) !in g.edges
    ensures var e' := Pass(g.edges, Held(k), Table(d, i0));
      && KernelOk(SetWord(m.frames, d, i0, Entry(g.edges[Held(k)], true, true)), m.shared, e', g.live)
      && TreeOk(e', g.live)
  {
    var x := Entry(g.edges[Held(k)], true, true);
    DirWord(m, g, d, i0, x);
    KernelKeeps(m.frames, SetWord(m.frames, d, i0, x), m.shared, g.edges, Pass(g.edges, Held(k), Table(d, i0)), g.live);
  }

  /** Writing into a directory changes that one word, no page table and no page. */
  lemma DirWord(m: Mem, g: Shadow, d: nat, i0: nat, x: Word)
    requires Inv(m, g) && Dir(d) in g.edges && d < |m.frames| && i0 < 1024
    ensures var frames' := SetWord(m.frames, d, i0, x);
      && (forall d', i :: Pde(frames', d', i) ==
            if d' == d && i == i0 then x else Pde(m.frames, d', i))
      && (forall u :: u in g.edges && u != Dir(d) && g.edges[u] < |m.frames| ==>
            frames'[g.edges[u]] == m.frames[g.edges[u]])
  {
    forall u | u in g.edges && u != Dir(d) ensures g.edges[u] != d {
      assert g.edges[Dir(d)] == d;
    }
  }

  /** An empty new page table maps nothing, as no table did before. */
  lemma LinkTablePtes(m: Mem, g: Shadow, k: nat, d: nat, i0: nat)
    requires Inv(m, g) && Held(k) in g.edges && Sole(g.edges, Held(k))
    requires g.edges[Held(k)] < |m.frames| && m.frames[g.edges[Held(k)]] == ZeroPage()
    requires d in g.live && UserDir(i0) && Table(d, i0) !in g.edges && d < |m.frames|
    ensures var frames' := SetWord(m.frames, d, i0, Entry(g.edges[Held(k)], true, true));
      forall d', p' :: d' in g.live && UserPage(p') ==>
        Pte(frames', Pass(g.edges, Held(k), Table(d, i0)), d', p') == Pte(m.frames, g.edges, d', p')
  {
    hide FreeOk, CountsOk, KernelOk, MapsOk, CowOk;
    var e, x := g.edges, Entry(g.edges[Held(k)], true, true);
    var frames' := SetWord(m.frames, d, i0, x);
    DirWord(m, g, d, i0, x);
    forall d', p' | d' in g.live && UserPage(p')
      ensures Pte(frames', Pass(e, Held(k), Table(d, i0)), d', p') == Pte(m.frames, e, d', p')
    {
      if Table(d', p'.i0) != Table(d, i0) && Table(d', p'.i0) in e {
        assert frames'[e[Table(d', p'.i0)]] == m.frames[e[Table(d', p'.i0)]];
      }
    }
  }

  lemma LinkTableMaps(m: Mem, g: Shadow, k: nat, d: nat, i0: nat)
    requires Inv(m, g) && Held(k) in g.edges && Sole(g.edges, Held(k))
    requires g.edges[Held(k)] < |m.frames| && m.frames[g.edges[Held(k)]] == ZeroPage()
    requires d in g.live && UserDir(i0) && Table(d, i0) !in g.edges && d < |m.frames|
    ensures var frames' := SetWord(m.frames, d, i0, Entry(g.edges[Held(k)], true, true));
      var e' := Pass(g.edges, Held(k), Table(d, i0));
      && MapsOk(frames', e', g.live) && CowOk(frames', e', g.live)
      && (forall d, p :: View(frames', e', d, p) == View(m.frames, g.edges, d, p))
  {
    hide FreeOk, CountsOk, KernelOk;
    var e := g.edges;
    var x := Entry(e[Held(k)], true, true);
    var frames' := SetWord(m.frames, d, i0, x);
    var e' := Pass(e, Held(k), Table(d, i0));
    DirWord(m, g, d, i0, x);
    LinkTablePtes(m, g, k, d, i0);
    forall d', p' | d' in g.live && UserPage(p')
      ensures EntryOk(Pte(frames', e', d', p'), e', Leaf(d', p'))
    {
      assert EntryOk(Pte(m.frames, e, d', p'), e, Leaf(d', p'));
    }
    forall d', i | d' in g.live && UserDir(i)
      ensures DirEntryOk(Pde(frames', d', i), e', Table(d', i))
    {
      assert DirEntryOk(Pde(m.frames, d', i), e, Table(d', i));
    }
    forall d', p' | d' in g.live && Leaf(d', p') in e' && Writable(Pte(frames', e', d', p'))
      ensures Sole(e', Leaf(d', p'))
    {
      assert Sole(e, Leaf(d', p'));
    }
  }

  /** A held frame that copies the shared directory becomes a new, empty address space. */
  lemma LinkDir(m: Mem, g: Shadow, k: nat)
    requires Inv(m, g) && Held(k) in g.edges && Sole(g.edges, Held(k))
    requires g.edges[Held(k)] < |m.frames|
    ensures Dir(g.edges[Held(k)]) !in g.edges && g.edges[Held(k)] !in g.live
    ensures var f := g.edges[Held(k)];
      var m' := m.(frames := m.frames[f := m.frames[m.shared]]);
      var g' := PassTo(g, Held(k), Dir(f)).(live := g.live + {f});
      && Inv(m', g')
      && (forall d, p :: View(m'.frames, g'.edges, d, p) == View(m.frames, g.edges, d, p))
      && (forall p :: Leaf(f, p) !in g'.edges)
  {
    hide FreeOk, CountsOk, RangeOk, UniqueOk, TreeOk, MapsOk, CowOk, KernelOk;
    LinkDirFresh(m, g, k);
    var f := g.edges[Held(k)];
    FreeKeeps(m, g, m.frames[f := m.frames[m.shared]], f);
    PassKeeps(m, g, Held(k), Dir(f));
    LinkDirMaps(m, g, k);
    LinkDirKernel(m, g, k);
  }

  lemma LinkDirFresh(m: Mem, g: Shadow, k: nat)
    requires Inv(m, g) && Held(k) in g.edges && Sole(g.edges, Held(k))
    requires g.edges[Held(k)] < |m.frames|
    ensures var f := g.edges[Held(k)];
      && Dir(f) !in g.edges && f !in g.live && m.refs[f] > 0
      && (forall i0 :: Table(f, i0) !in g.edges) && (forall p :: Leaf(f, p) !in g.edges)
      && (forall d, p :: View(m.frames[f := m.frames[m.shared]], Pass(g.edges, Held(k), Dir(f)), d, p)
            == View(m.frames, g.edges, d, p))
  {
    var f := g.edges[Held(k)];
    SoleIsOne(m.refs, g.edges, Held(k));
    assert Dir(f) !in g.edges;
    assert forall u :: u in g.edges && u.Leaf? ==> g.edges[u] != f;
  }

  lemma LinkDirKernel(m: Mem, g: Shadow, k: nat)
    requires Inv(m, g) && Held(k) in g.edges && Sole(g.edges, Held(k))
    requires g.edges[Held(k)] < |m.frames| && Dir(g.edges[Held(k)]) !in g.edges
    ensures var f := g.edges[Held(k)];
      KernelOk(m.frames[f := m.frames[m.shared]], m.shared, Pass(g.edges, Held(k), Dir(f)), g.live + {f})
  {
    var e := g.edges;
    var f := e[Held(k)];
    var frames' := m.frames[f := m.frames[m.shared]];
    forall d, i0 | Dir(d) in e ensures Pde(frames', d, i0) == Pde(m.frames, d, i0) {
      assert e[Dir(d)] == d;
    }
    KernelKeeps(m.frames, frames', m.shared, e, Pass(e, Held(k), Dir(f)), g.live);
  }

  lemma LinkDirMaps(m: Mem, g: Shadow, k: nat)
    requires Inv(m, g) && Held(k) in g.edges && Sole(g.edges, Held(k))
    requires g.edges[Held(k)] < |m.frames|
    requires var f := g.edges[Held(k)]; Dir(f) !in g.edges && f !in g.live
    requires var f := g.edges[Held(k)];
      (forall i0 :: Table(f, i0) !in g.edges) && (forall p :: Leaf(f, p) !in g.edges)
    ensures var f := g.edges[Held(k)];
      var frames' := m.frames[f := m.frames[m.shared]];
      var e' := Pass(g.edges, Held(k), Dir(f));
      && TreeOk(e', g.live + {f}) && MapsOk(frames', e', g.live + {f})
      && CowOk(frames', e', g.live + {f})
  {
    hide FreeOk, CountsOk, RangeOk;
    var e := g.edges;
    var f := e[Held(k)];
    var live' := g.live + {f};
    var frames' := m.frames[f := m.frames[m.shared]];
    var e' := Pass(e, Held(k), Dir(f));
    assert e[Dir(m.shared)] == m.shared;
    forall d, i0 | Dir(d) in e ensures Pde(frames', d, i0) == Pde(m.frames, d, i0) {
      assert e[Dir(d)] == d;
    }
    forall d, p | d in live' && UserPage(p)
      ensures EntryOk(Pte(frames', e', d, p), e', Leaf(d, p))
      ensures d != f ==> Pte(frames', e', d, p) == Pte(m.frames, e, d, p)
    {
      assert d in g.live ==> EntryOk(Pte(m.frames, e, d, p), e, Leaf(d, p));
    }
    forall d, p | d in live' && Leaf(d, p) in e' && Writable(Pte(frames', e', d, p))
      ensures Sole(e', Leaf(d, p))
    {
      assert Sole(e, Leaf(d, p));
    }
    forall d, i0 | d in live' && UserDir(i0)
      ensures DirEntryOk(Pde(frames', d, i0), e', Table(d, i0))
    {
      if d in g.live {
        assert DirEntryOk(Pde(m.frames, d, i0), e, Table(d, i0));
      } else {
        assert Pde(m.frames, m.shared, i0) == 0;
      }
    }
  }

  // ---- dropping a reference

  /** VMM::free: the shadow loses the reference, and gains a free frame when it was the last one. */
  ghost function DropShadow(g: Shadow, u: Use): Shadow
    requires u in g.edges
  {
    g.(edges := g.edges - {u},
       free := if Sole(g.edges, u) then [g.edges[u]] + g.free else g.free)
  }

  /** Nothing in the tables of a live space, and no other reference, hangs from u. */
  ghost predicate Droppable(g: Shadow, shared: nat, u: Use) {
    match u
    case Held(_) => true
    case Leaf(d, _) => d !in g.live
    case Table(d, i0) => d !in g.live && d != shared && forall p: VPage :: p.i0 == i0 ==> Leaf(d, p) !in g.edges
    case Dir(d) => d !in g.live && d != shared && forall i0 :: Table(d, i0) !in g.edges
  }

  lemma DropFree(m: Mem, g: Shadow, u: Use)
    requires Inv(m, g) && u in g.edges
    ensures g.edges[u] < |m.refs| && m.refs[g.edges[u]] > 0
    ensures var m' := FreeMem(m, g.edges[u]); var g' := DropShadow(g, u);
      FreeOk(m'.frames, m'.firstFree, m'.avail, g'.free, g'.start)
  {
    SoleIsOne(m.refs, g.edges, u);
    var f := g.edges[u];
    assert f !in g.free;
    if m.refs[f] == 1 {
      PushFree(m.frames, m.firstFree, m.avail, g, f);
      var m', g' := FreeMem(m, f), DropShadow(g, u);
      assert g'.free == [f] + g.free;
    }
  }

  lemma PushFree(frames: seq<Page>, firstFree: Word, avail: nat, g: Shadow, f: nat)
    requires FreeOk(frames, firstFree, avail, g.free, g.start)
    requires f !in g.free && g.start <= f < avail && f < |frames| && f < 0x10_0000
    ensures FreeOk(SetWord(frames, f, 0, firstFree), 4096 * f, avail, [f] + g.free, g.start)
  {
    hide Link;
    LinkPush(g.free, f);
    var free' := [f] + g.free;
    var frames' := SetWord(frames, f, 0, firstFree);
    assert forall i :: 0 < i < |free'| ==> free'[i] == g.free[i - 1] && g.free[i - 1] in g.free;
    forall i | 0 <= i < |free'| && free'[i] < |frames'|
      ensures frames'[free'[i]][0] == Link(free', i + 1)
    {
      if i > 0 {
        assert frames'[free'[i]] == frames[g.free[i - 1]];
        assert frames[g.free[i - 1]][0] == Link(g.free, i - 1 + 1);
      }
    }
  }

  lemma LinkPush(free: seq<nat>, f: nat)
    ensures Link([f] + free, 0) == 4096 * f
    ensures forall i: nat :: Link([f] + free, i + 1) == Link(free, i)
  {
  }

  lemma DropRange(m: Mem, g: Shadow, u: Use)
    requires Inv(m, g) && u in g.edges
    ensures g.edges[u] < |m.refs| && m.refs[g.edges[u]] > 0
    ensures var m', g' := FreeMem(m, g.edges[u]), DropShadow(g, u);
      RangeOk(m'.refs, m'.avail, g'.edges, g'.free, g'.start)
  {
    SoleIsOne(m.refs, g.edges, u);
    var f := g.edges[u];
    var m', g' := FreeMem(m, f), DropShadow(g, u);
    forall x | g.start <= x < m'.avail && x < |m'.refs|
      ensures x in g'.free <==> m'.refs[x] == 0
    {
      assert x in g.free <==> m.refs[x] == 0;
      assert x != f ==> (x in g'.free <==> x in g.free);
    }
  }

  /** The only frame that VMM::free writes is one that nothing refers to any more. */
  lemma DropFrames(m: Mem, g: Shadow, u: Use)
    requires Shape(m, g) && CountsOk(m.refs, g.edges) && u in g.edges && g.edges[u] < |m.refs|
    ensures m.refs[g.edges[u]] > 0
    ensures SameFrames(m.frames, FreeMem(m, g.edges[u]).frames, g.edges - {u})
  {
    SoleIsOne(m.refs, g.edges, u);
  }

  /** Dropping a reference keeps the invariant and every page that is still mapped. */
  lemma Drop(m: Mem, g: Shadow, u: Use)
    requires Inv(m, g) && u in g.edges && Droppable(g, m.shared, u)
    ensures g.edges[u] < |m.refs| && m.refs[g.edges[u]] > 0
    ensures var m' := FreeMem(m, g.edges[u]); var g' := DropShadow(g, u);
      && Inv(m', g')
      && SameFrames(m.frames, m'.frames, g'.edges)
      && (forall d, p :: Leaf(d, p) in g'.edges ==>
            View(m'.frames, g'.edges, d, p) == View(m.frames, g.edges, d, p))
  {
    hide FreeOk, CountsOk, RangeOk, UniqueOk, TreeOk, MapsOk, CowOk, KernelOk;
    DropFree(m, g, u);
    DropRange(m, g, u);
    CountsDrop(m.refs, g.edges, u);
    DropFrames(m, g, u);
    DropTables(m, g, u);
    FramesKeep(m.frames, FreeMem(m, g.edges[u]).frames, m.shared, g.edges - {u}, g.live);
    DropUnique(g.edges, u);
  }

  lemma DropUnique(e: map<Use, nat>, u: Use)
    requires UniqueOk(e)
    ensures UniqueOk(e - {u})
  {
  }

  lemma DropTables(m: Mem, g: Shadow, u: Use)
    requires Inv(m, g) && u in g.edges && Droppable(g, m.shared, u)
    ensures var e' := g.edges - {u};
      && TreeOk(e', g.live) && MapsOk(m.frames, e', g.live) && CowOk(m.frames, e', g.live)
      && KernelOk(m.frames, m.shared, e', g.live)
  {
    var e := g.edges;
    var e' := e - {u};
    forall d, p | d in g.live && UserPage(p)
      ensures EntryOk(Pte(m.frames, e', d, p), e', Leaf(d, p))
      ensures Pte(m.frames, e', d, p) == Pte(m.frames, e, d, p)
    {
      assert u != Leaf(d, p) && u != Table(d, p.i0);
      assert EntryOk(Pte(m.frames, e, d, p), e, Leaf(d, p));
    }
    forall d, i0 | d in g.live && UserDir(i0)
      ensures DirEntryOk(Pde(m.frames, d, i0), e', Table(d, i0))
    {
      assert DirEntryOk(Pde(m.frames, d, i0), e, Table(d, i0));
    }
    forall d, p | d in g.live && Leaf(d, p) in e' && Writable(Pte(m.frames, e', d, p))
      ensures Sole(e', Leaf(d, p))
    {
      assert Sole(e, Leaf(d, p));
    }
    forall d, p | Leaf(d, p) in e' ensures Table(d, p.i0) in e' {
      assert u.Table? && u == Table(d, p.i0) ==> Leaf(d, p) !in g.edges;
    }
  }

  /** An address space about to be destroyed stops being one that user code runs in. */
  lemma Retire(m: Mem, g: Shadow, d: nat)
    requires Inv(m, g)
    ensures Inv(m, g.(live := g.live - {d}))
  {
  }

  // ---- user stores

  /** A store through a writable entry changes that page of that space and nothing any other space sees. */
  lemma StorePage(m: Mem, g: Shadow, d: nat, p: VPage, page: Page)
    requires Inv(m, g) && d in g.live && Leaf(d, p) in g.edges && Writable(Pte(m.frames, g.edges, d, p))
    ensures g.edges[Leaf(d, p)] < |m.frames|
    ensures var m' := m.(frames := m.frames[g.edges[Leaf(d, p)] := page]);
      && Inv(m', g)
      && (forall d', p' :: View(m'.frames, g.edges, d', p') ==
            if d' == d && p' == p then page else View(m.frames, g.edges, d', p'))
      && (forall d', p' :: Pte(m'.frames, g.edges, d', p') == Pte(m.frames, g.edges, d', p'))
  {
    var e := g.edges;
    var f := e[Leaf(d, p)];
    var frames' := m.frames[f := page];
    SoleIsOne(m.refs, e, Leaf(d, p));
    FreeKeeps(m, g, frames', f);
    assert Sole(e, Leaf(d, p));
    forall d', i0 | Dir(d') in e ensures Pde(frames', d', i0) == Pde(m.frames, d', i0) {
      assert e[Dir(d')] == d';
    }
    assert forall d', p' :: Pte(frames', e, d', p') == Pte(m.frames, e, d', p');
    assert MapsOk(frames', e, g.live);
  }

  /** Filling a held frame that nothing else refers to. */
  lemma FillHeld(m: Mem, g: Shadow, k: nat, page: Page)
    requires Inv(m, g) && Held(k) in g.edges && Sole(g.edges, Held(k))
    ensures g.edges[Held(k)] < |m.frames|
    ensures var m' := m.(frames := m.frames[g.edges[Held(k)] := page]);
      && Inv(m', g)
      && (forall d, p :: View(m'.frames, g.edges, d, p) == View(m.frames, g.edges, d, p))
      && (forall d, p :: Pte(m'.frames, g.edges, d, p) == Pte(m.frames, g.edges, d, p))
  {
    var e := g.edges;
    var f := e[Held(k)];
    var frames' := m.frames[f := page];
    SoleIsOne(m.refs, e, Held(k));
    FreeKeeps(m, g, frames', f);
    forall d, i0 | Dir(d) in e ensures Pde(frames', d, i0) == Pde(m.frames, d, i0) {
      assert e[Dir(d)] == d;
    }
    KernelKeeps(m.frames, frames', m.shared, e, e, g.live);
    assert forall d, p :: Pte(frames', e, d, p) == Pte(m.frames, e, d, p);
  }

  /**
    The two writes of a copy-on-write fault that detach the shared page, VMM::free(pa) and
    `pte = 0`, are the same as clearing the entry and then dropping the reference.
  */
  lemma DetachPage(m: Mem, g: Shadow, k: nat, d: nat, p: VPage)
    requires Inv(m, g) && Held(k) !in g.edges && d in g.live && Leaf(d, p) in g.edges
    ensures Table(d, p.i0) in g.edges && g.edges[Table(d, p.i0)] < |m.frames| && p.i1 < 1024
    ensures g.edges[Leaf(d, p)] < |m.frames| == |m.refs| <= NUM_FRAMES && m.refs[g.edges[Leaf(d, p)]] > 0
    ensures var m1 := FreeMem(m, g.edges[Leaf(d, p)]);
      var m' := m1.(frames := SetWord(m1.frames, g.edges[Table(d, p.i0)], p.i1, 0));
      var g' := DropShadow(PassTo(g, Leaf(d, p), Held(k)), Held(k));
      && Inv(m', g')
      && (forall d', p' :: !(d' == d && p' == p) ==>
            View(m'.frames, g'.edges, d', p') == View(m.frames, g.edges, d', p'))
      && g'.edges == g.edges - {Leaf(d, p)}
      && SameFrames(m.frames[g.edges[Table(d, p.i0)] := m'.frames[g.edges[Table(d, p.i0)]]], m'.frames, g'.edges)
  {
    hide FreeOk, CountsOk, RangeOk, UniqueOk, TreeOk, MapsOk, CowOk, KernelOk;
    DetachRange(m, g, d, p);
    var t, f := g.edges[Table(d, p.i0)], g.edges[Leaf(d, p)];
    UnlinkLeaf(m, g, k, d, p);
    var m1 := m.(frames := SetWord(m.frames, t, p.i1, 0));
    var g1 := PassTo(g, Leaf(d, p), Held(k));
    Drop(m1, g1, Held(k));
    var m2 := FreeMem(m, f);
    assert m2.(frames := SetWord(m2.frames, t, p.i1, 0)) == FreeMem(m1, f);
    assert DropShadow(g1, Held(k)).edges == g.edges - {Leaf(d, p)};
    DetachViews(m1, g1, k);
  }

  lemma DetachViews(m: Mem, g: Shadow, k: nat)
    requires Inv(m, g) && Held(k) in g.edges && g.edges[Held(k)] < |m.refs| && m.refs[g.edges[Held(k)]] > 0
    requires SameFrames(m.frames, FreeMem(m, g.edges[Held(k)]).frames, g.edges - {Held(k)})
    ensures forall d, p ::
      View(FreeMem(m, g.edges[Held(k)]).frames, g.edges - {Held(k)}, d, p) == View(m.frames, g.edges, d, p)
  {
  }

  lemma DetachRange(m: Mem, g: Shadow, d: nat, p: VPage)
    requires Inv(m, g) && Leaf(d, p) in g.edges
    ensures UserPage(p) && Table(d, p.i0) in g.edges
    ensures g.edges[Table(d, p.i0)] < |m.frames| && g.edges[Leaf(d, p)] < |m.frames|
    ensures m.refs[g.edges[Leaf(d, p)]] > 0
    ensures g.edges[Table(d, p.i0)] != g.edges[Leaf(d, p)]
  {
    SoleIsOne(m.refs, g.edges, Leaf(d, p));
    assert !Sharable(Table(d, p.i0));
  }

  // ---- building the shared kernel part, before any user address space exists

  /** getPTE on the shared directory: a held frame becomes a page table of the kernel part. */
  lemma LinkSharedTable(m: Mem, g: Shadow, k: nat, i0: nat)
    requires Inv(m, g) && g.live == {} && Held(k) in g.edges && Sole(g.edges, Held(k))
    requires i0 < 1024 && !UserDir(i0) && Table(m.shared, i0) !in g.edges
    ensures g.edges[Held(k)] < |m.frames|
    ensures var t := g.edges[Held(k)];
      var m' := m.(frames := SetWord(m.frames, m.shared, i0, Entry(t, true, true)));
      var g' := PassTo(g, Held(k), Table(m.shared, i0));
      && Inv(m', g')
      && (forall d, p :: View(m'.frames, g'.edges, d, p) == View(m.frames, g.edges, d, p))
  {
    hide FreeOk, CountsOk, UniqueOk;
    var x := Entry(g.edges[Held(k)], true, true);
    DirFrame(m, g, m.shared);
    FreeKeeps(m, g, SetWord(m.frames, m.shared, i0, x), m.shared);
    PassKeeps(m, g, Held(k), Table(m.shared, i0));
    DirWord(m, g, m.shared, i0, x);
    LinkSharedKernel(m, g, k, i0);
  }

  lemma LinkSharedKernel(m: Mem, g: Shadow, k: nat, i0: nat)
    requires Inv(m, g) && g.live == {} && Held(k) in g.edges && Sole(g.edges, Held(k))
    requires i0 < 1024 && !UserDir(i0) && Table(m.shared, i0) !in g.edges
    requires g.edges[Held(k)] < |m.frames|
    ensures var frames' := SetWord(m.frames, m.shared, i0, Entry(g.edges[Held(k)], true, true));
      KernelOk(frames', m.shared, Pass(g.edges, Held(k), Table(m.shared, i0)), {})
  {
    var x := Entry(g.edges[Held(k)], true, true);
    var frames' := SetWord(m.frames, m.shared, i0, x);
    var e' := Pass(g.edges, Held(k), Table(m.shared, i0));
    DirWord(m, g, m.shared, i0, x);
    forall i | i < 1024 && !UserDir(i)
      ensures DirEntryOk(Pde(frames', m.shared, i), e', Table(m.shared, i))
    {
      assert DirEntryOk(Pde(m.frames, m.shared, i), g.edges, Table(m.shared, i));
    }
  }

  /** An identity mapping entered in a kernel page table counts no reference. */
  lemma SharedEntry(m: Mem, g: Shadow, i0: nat, i1: nat, x: Word)
    requires Inv(m, g) && g.live == {} && Table(m.shared, i0) in g.edges && i1 < 1024
    ensures g.edges[Table(m.shared, i0)] < |m.frames|
    ensures Inv(m.(frames := SetWord(m.frames, g.edges[Table(m.shared, i0)], i1, x)), g)
  {
    TableFrame(m, g, m.shared, VPage(i0, i1), x);
    var frames' := SetWord(m.frames, g.edges[Table(m.shared, i0)], i1, x);
    DirsSame(m.frames, frames', g.edges, {}, Table(m.shared, i0));
    KernelKeeps(m.frames, frames', m.shared, g.edges, g.edges, {});
  }
}
