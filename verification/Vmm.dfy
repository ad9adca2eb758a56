/**
  The frame pool and the address spaces of kernel/vmm.cc, updated in place: VMM::alloc and
  free, the AddressSpace constructor and destructor, getPTE, pmap and handlePageFault, and
  the copy-on-write loop body of sys_call::fork (kernel/sys.cc).

  An AddressSpace object is named by the frame of its page directory.  Debug::panic stops the
  kernel; a method whose source can run out of frames returns None or false there, and the
  other two panics of the pool are the branches that hold `assert false`.
*/
module CopyOnWriteVmm {
  import opened Options
  import opened Paging
  import opened PagingSteps
  import opened PagingFacts

  datatype Fault = Resolved | NoFrames | Bad

  /** u is the same reference, or absent, in both. */
  ghost predicate SameUse(e: map<Use, nat>, e': map<Use, nat>, u: Use) {
    (u in e <==> u in e') && (u in e ==> e'[u] == e[u])
  }

  /** u belongs to address space d. */
  predicate OfSpace(u: Use, d: nat) { !u.Held? && u.d == d }

  /** The references that do not belong to address space d. */
  ghost function Without(e: map<Use, nat>, d: nat): map<Use, nat> {
    map u | u in e && !OfSpace(u, d) :: e[u]
  }

  /** What is left of e once the destructor of d is at entry i1 of its table i0. */
  predicate Gone(u: Use, d: nat, i0: nat, i1: nat) {
    match u
    case Leaf(d', p) => d' == d && (p.i0 < i0 || (p.i0 == i0 && p.i1 < i1))
    case Table(d', j) => d' == d && j < i0
    case _ => false
  }

  ghost function Left(e: map<Use, nat>, d: nat, i0: nat, i1: nat): map<Use, nat> {
    map u | u in e && !Gone(u, d, i0, i1) :: e[u]
  }

  class Vmm {
    const start: nat
    const limit: nat
    const shared: nat
    const frames: array<Page>
    const refs: array<nat>
    var firstFree: Word
    var avail: nat
    ghost var g: Shadow

    /**
      VMM::init over the given memory, up to the shared address space's empty directory, which
      takes the first frame of the pool.
    */
    constructor (memory: seq<Page>, start: nat)
      requires 0 < start < |memory| <= NUM_FRAMES
      ensures Valid() && fresh(frames) && fresh(refs)
      ensures g.live == {} && shared == start && limit == |memory|
      ensures forall i0 :: i0 < 1024 ==> Pde(frames[..], shared, i0) == 0
    {
      this.start, this.limit, this.shared := start, |memory|, start;
      frames := new Page[|memory|](i requires 0 <= i < |memory| => memory[i]);
      refs := new nat[|memory|](_ => 0);
      firstFree, avail := 0, start;
      g := Shadow(map[Dir(start) := start], [], {}, start);
      new;
      frames[start], refs[start], avail := ZeroPage(), refs[start] + 1, avail + 1;
      assert forall f :: 0 <= f < limit && f != start ==> Holders(g.edges, f) == {};
      assert Holders(g.edges, start) == {Dir(start)};
    }

    ghost function State(): Mem
      reads this, frames, refs
    {
      Mem(frames[..], refs[..], firstFree, avail, limit, shared)
    }

    /** The invariant, possibly with references in the hands of the running routine. */
    ghost predicate Ok()
      reads this, frames, refs
    {
      Inv(State(), g) && g.start == start
    }

    ghost predicate Valid()
      reads this, frames, refs
    {
      Ok() && Quiet(g, shared)
    }

    ghost function PageView(d: nat, p: VPage): Page
      reads this, frames
    {
      View(frames[..], g.edges, d, p)
    }

    ghost predicate Mapped(d: nat, p: VPage)
      reads this
    {
      Leaf(d, p) in g.edges
    }

    ghost predicate MappedWritable(d: nat, p: VPage)
      reads this, frames
    {
      Mapped(d, p) && Writable(Pte(frames[..], g.edges, d, p))
    }

    /** The frames that can still be handed out: those on the free list, and those never used. */
    ghost function Spare(): int
      reads this
    {
      |g.free| + limit - avail
    }

    lemma SpareMeans()
      requires Ok()
      ensures 0 <= Spare() && (CanAlloc(State()) <==> Spare() > 0) && (Exhausted() <==> Spare() == 0)
      ensures firstFree != 0 <==> |g.free| > 0
      ensures |g.free| > 0 ==> NextFrame(State()) == g.free[0]
    {
      if |g.free| > 0 { NextFrameFree(State(), g); }
    }

    /** The frames that a fault on page p of space d takes: for the page table, and for the page. */
    ghost function FaultFrames(d: nat, p: VPage): nat
      reads this, frames
    {
      if Table(d, p.i0) !in g.edges then 2
      else if Mapped(d, p) && (MappedWritable(d, p) || Sole(g.edges, Leaf(d, p))) then 0
      else 1
    }

    /** The pool has no frame left: the next VMM::alloc stops the kernel. */
    ghost predicate Exhausted()
      reads this
    {
      firstFree == 0 && avail == limit
    }

    lemma AllocReady()
      requires Ok()
      ensures frames.Length == refs.Length == limit <= NUM_FRAMES
      ensures CanAlloc(State()) ==>
        NextFrame(State()) < limit && refs[NextFrame(State())] == 0
    {
      if CanAlloc(State()) {
        NextFrameFree(State(), g);
      }
    }

    /** VMM::alloc: None where the kernel stops with "no more frames". */
    method Alloc(ghost k: nat) returns (r: Option<nat>)
      requires Ok() && Held(k) !in g.edges
      modifies this, frames, refs
      ensures r.None? <==> !CanAlloc(old(State()))
      ensures r.None? ==> State() == old(State()) && g == old(g)
      ensures r.Some? ==> r.value == NextFrame(old(State())) < limit
      ensures r.Some? ==> State() == AllocMem(old(State())) && g == AllocShadow(old(State()), old(g), k)
      ensures r.None? <==> old(Spare()) == 0
      ensures r.Some? ==> Spare() == old(Spare()) - 1
      ensures r.Some? ==>
        if |old(g.free)| > 0
        then r.value == old(g.free)[0] && g.free == old(g.free)[1..] && avail == old(avail)
        else r.value == old(avail) && avail == old(avail) + 1
    {
      hide FreeOk, CountsOk, RangeOk, UniqueOk, TreeOk, MapsOk, CowOk, KernelOk;
      AllocReady();
      SpareMeans();
      var p: nat;
      if firstFree != 0 {
        p := FrameOf(firstFree);
        firstFree := frames[p][0];
      } else {
        if avail == limit {
          return None;
        }
        p := avail;
        avail := avail + 1;
      }
      if refs[p] != 0 {
        assert false;
      }
      refs[p] := refs[p] + 1;
      frames[p] := ZeroPage();
      g := AllocShadow(old(State()), g, k);
      return Some(p);
    }

    /** VMM::free: drops one reference and, at zero, pushes the frame on the free list. */
    method Free(f: nat)
      requires f < frames.Length == refs.Length <= NUM_FRAMES && refs[f] > 0
      modifies this`firstFree, frames, refs
      ensures State() == FreeMem(old(State()), f)
    {
      if refs[f] == 0 {
        assert false;
      }
      refs[f] := refs[f] - 1;
      if refs[f] == 0 {
        frames[f] := frames[f][0 := firstFree];
        firstFree := 4096 * f;
      }
      assert State() == FreeMem(old(State()), f);
    }

    /** The pages of a live space's user part, or, while the kernel boots, of the shared kernel part. */
    ghost predicate TableMayGrow(pd: nat, i0: nat)
      reads this
    {
      i0 < 1024 && if UserDir(i0) then pd in g.live else pd == shared && g.live == {}
    }

    /** What the word of directory pd at i0 says when the invariant holds. */
    lemma DirWordMeans(pd: nat, i0: nat)
      requires Ok() && TableMayGrow(pd, i0)
      ensures pd < frames.Length && Dir(pd) in g.edges && frames.Length == limit <= NUM_FRAMES
      ensures Present(frames[pd][i0]) <==> Table(pd, i0) in g.edges
      ensures Table(pd, i0) in g.edges ==>
        FrameOf(frames[pd][i0]) == g.edges[Table(pd, i0)] < frames.Length
      ensures Table(pd, i0) in g.edges ==> Writable(frames[pd][i0]) && ForUser(frames[pd][i0])
    {
      DirFrame(State(), g, if UserDir(i0) then pd else shared);
      assert DirEntryOk(Pde(State().frames, pd, i0), g.edges, Table(pd, i0));
    }

    lemma TableSole(d: nat, i0: nat)
      requires Ok() && Table(d, i0) in g.edges
      ensures Sole(g.edges, Table(d, i0))
    {
    }

    lemma TableDistinct(d: nat)
      requires Ok() && Dir(d) in g.edges
      ensures forall u :: u in g.edges && Sharable(u) ==> g.edges[u] != d
    {
      assert g.edges[Dir(d)] == d;
    }

    lemma UsesInPool()
      requires Ok()
      ensures forall u :: u in g.edges ==> g.edges[u] < frames.Length
      ensures CanAlloc(State()) ==> forall u :: u in g.edges ==> g.edges[u] != NextFrame(State())
    {
      if CanAlloc(State()) {
        NextFrameFree(State(), g);
      }
    }

    /** AddressSpace::getPTE: the frame of the page table for i0, made if there is none. */
    method GetPTE(pd: nat, i0: nat, ghost k: nat) returns (r: Option<nat>)
      requires Ok() && Held(k) !in g.edges && TableMayGrow(pd, i0)
      modifies this, frames, refs
      ensures Ok() && g.live == old(g.live)
      ensures old(Table(pd, i0) in g.edges) ==> r.Some? && State() == old(State()) && g == old(g)
      ensures r.None? ==> State() == old(State()) && g == old(g)
      ensures r.Some? ==> r.value < limit && g.edges == old(g.edges)[Table(pd, i0) := r.value]
      ensures r.Some? ==> Sole(g.edges, Table(pd, i0))
      ensures r.Some? && old(Table(pd, i0) !in g.edges) ==> TableMade(old(State()), State(), pd, i0, r.value)
      ensures forall d, p :: View(frames[..], g.edges, d, p) == old(View(frames[..], g.edges, d, p))
      ensures forall u :: u in old(g.edges) && Sharable(u) ==>
        old(g.edges[u]) < frames.Length && frames[old(g.edges[u])] == old(frames[g.edges[u]])
      ensures r.None? ==> Exhausted()
      ensures r.None? <==> old(Table(pd, i0) !in g.edges && Spare() == 0)
      ensures r.Some? ==> Spare() == old(Spare()) - (if old(Table(pd, i0) in g.edges) then 0 else 1)
    {
      hide FreeOk, CountsOk, RangeOk, UniqueOk, TreeOk, MapsOk, CowOk, KernelOk;
      DirWordMeans(pd, i0);
      UsesInPool();
      TableDistinct(pd);
      if !Present(frames[pd][i0]) {
        AllocReady();
        var t := Alloc(k);
        if t.None? {
          return None;
        }
        ghost var m1, g1 := State(), g;
        AllocHold(old(State()), old(g), k);
        frames[pd] := frames[pd][i0 := Entry(t.value, true, true)];
        if UserDir(i0) {
          LinkTable(m1, g1, k, pd, i0);
        } else {
          LinkSharedTable(m1, g1, k, i0);
        }
        g := PassTo(g1, Held(k), Table(pd, i0));
        assert State() == m1.(frames := SetWord(m1.frames, pd, i0, Entry(t.value, true, true)));
        assert g.edges == old(g.edges)[Table(pd, i0) := t.value];
      }
      DirWordMeans(pd, i0);
      TableSole(pd, i0);
      return Some(FrameOf(frames[pd][i0]));
    }

    /** What the word of page p in its page table says when the invariant holds. */
    lemma PageWordMeans(d: nat, p: VPage)
      requires Ok() && d in g.live && UserPage(p) && Table(d, p.i0) in g.edges
      ensures g.edges[Table(d, p.i0)] < frames.Length
      ensures var w := frames[g.edges[Table(d, p.i0)]][p.i1];
        && w == Pte(State().frames, g.edges, d, p)
        && (Present(w) <==> Leaf(d, p) in g.edges)
        && (Leaf(d, p) in g.edges ==> FrameOf(w) == g.edges[Leaf(d, p)] < frames.Length && ForUser(w))
    {
      assert EntryOk(Pte(State().frames, g.edges, d, p), g.edges, Leaf(d, p));
    }

    /**
      AddressSpace::pmap for a user page: the reference held in k becomes the page's.
      False where the kernel stops because it has no frame for the page table.
    */
    method Pmap(pd: nat, p: VPage, f: nat, forUser: bool, forWrite: bool, ghost k: nat, ghost k': nat)
      returns (ok: bool)
      requires Ok() && pd in g.live && UserPage(p) && Leaf(pd, p) !in g.edges && forUser
      requires Held(k) in g.edges && g.edges[Held(k)] == f && k != k' && Held(k') !in g.edges
      requires forWrite ==> Sole(g.edges, Held(k))
      modifies this, frames, refs
      ensures Ok() && g.live == old(g.live)
      ensures ok <==> old(Table(pd, p.i0) in g.edges || Spare() > 0)
      ensures ok ==> Spare() == old(Spare()) - (if old(Table(pd, p.i0) in g.edges) then 0 else 1)
      ensures ok ==> MappedWritable(pd, p) == forWrite && Mapped(pd, p) && g.edges[Leaf(pd, p)] == f
      ensures ok ==> forall u :: u != Held(k) && u != Leaf(pd, p) && u != Table(pd, p.i0) ==>
        SameUse(old(g.edges), g.edges, u)
      ensures ok ==> Held(k) !in g.edges && Table(pd, p.i0) in g.edges
      ensures f < frames.Length
      ensures ok ==> forall d', p' :: !(d' == pd && p' == p) ==>
        View(frames[..], g.edges, d', p') == old(View(frames[..], g.edges, d', p'))
      ensures ok ==> PageView(pd, p) == old(frames[f])
      ensures !ok ==> g == old(g)
      ensures !ok ==> forall d', p' :: View(frames[..], g.edges, d', p') == old(View(frames[..], g.edges, d', p'))
      ensures !ok ==> Exhausted()
    {
      hide FreeOk, CountsOk, RangeOk, UniqueOk, TreeOk, MapsOk, CowOk, KernelOk;
      UsesInPool();
      var t := GetPTE(pd, p.i0, k');
      if t.None? {
        return false;
      }
      PageWordMeans(pd, p);
      ghost var m1, g1 := State(), g;
      if !Present(frames[t.value][p.i1]) {
        LinkLeaf(m1, g1, k, pd, p, forWrite);
        frames[t.value] := frames[t.value][p.i1 := Entry(f, forUser, forWrite)];
        g := PassTo(g, Held(k), Leaf(pd, p));
        assert State() == m1.(frames := SetWord(m1.frames, t.value, p.i1, Entry(f, true, forWrite)));
      }
      return true;
    }

    lemma LeafHasTable(d: nat, p: VPage)
      requires Ok() && Leaf(d, p) in g.edges
      ensures UserPage(p) && Table(d, p.i0) in g.edges && g.edges[Leaf(d, p)] < frames.Length
      ensures frames.Length == refs.Length <= NUM_FRAMES && refs[g.edges[Leaf(d, p)]] > 0
      ensures refs[g.edges[Leaf(d, p)]] == 1 <==> Sole(g.edges, Leaf(d, p))
    {
      SoleIsOne(State().refs, g.edges, Leaf(d, p));
    }

    /** First branch of handlePageFault: a page never touched gets a zeroed frame. */
    method DemandZero(pd: nat, p: VPage) returns (ok: bool)
      requires Valid() && pd in g.live && UserPage(p) && Table(pd, p.i0) in g.edges && !Mapped(pd, p)
      modifies this, frames, refs
      ensures Valid() && g.live == old(g.live)
      ensures ok ==> MappedWritable(pd, p)
      ensures forall d, p :: View(frames[..], g.edges, d, p) == old(View(frames[..], g.edges, d, p))
      ensures forall d', p' :: !(d' == pd && p' == p) ==>
        (Leaf(d', p') in g.edges <==> Leaf(d', p') in old(g.edges))
      ensures !ok ==> Exhausted()
      ensures (ok <==> old(Spare()) > 0) && (ok ==> Spare() == old(Spare()) - 1)
    {
      hide FreeOk, CountsOk, RangeOk, UniqueOk, TreeOk, MapsOk, CowOk, KernelOk;
      var pa := Alloc(0);
      if pa.None? {
        return false;
      }
      AllocHold(old(State()), old(g), 0);
      ghost var g1 := g;
      ok := Pmap(pd, p, pa.value, true, true, 0, 1);
      Settled(old(g), g1, g, pd, p);
    }

    /** Second branch: the only reference to the frame may write it. */
    method GrantWrite(pd: nat, p: VPage, t: nat)
      requires Valid() && pd in g.live && Mapped(pd, p) && Sole(g.edges, Leaf(pd, p))
      requires Table(pd, p.i0) in g.edges && g.edges[Table(pd, p.i0)] == t
      modifies frames
      ensures Valid() && MappedWritable(pd, p)
      ensures forall d, p :: View(frames[..], g.edges, d, p) == old(View(frames[..], g.edges, d, p))
    {
      hide FreeOk, CountsOk, RangeOk, UniqueOk, TreeOk, MapsOk, CowOk, KernelOk;
      LeafHasTable(pd, p);
      PageWordMeans(pd, p);
      var x := WithW(frames[t][p.i1]);
      ChangeWrite(State(), g, pd, p, x);
      frames[t] := frames[t][p.i1 := x];
      assert State() == old(State()).(frames := SetWord(old(State()).frames, t, p.i1, x));
    }

    /** Third branch: a shared page is copied before it may be written. */
    method CopyPage(pd: nat, p: VPage, t: nat) returns (ok: bool)
      requires Valid() && pd in g.live && Mapped(pd, p)
      requires Table(pd, p.i0) in g.edges && g.edges[Table(pd, p.i0)] == t
      modifies this, frames, refs
      ensures Valid() && g.live == old(g.live)
      ensures ok ==> MappedWritable(pd, p)
      ensures forall d, p :: View(frames[..], g.edges, d, p) == old(View(frames[..], g.edges, d, p))
      ensures forall d, p :: Leaf(d, p) in g.edges <==> Leaf(d, p) in old(g.edges)
      ensures !ok ==> Exhausted()
      ensures ok <==> old(Spare()) > 0
      ensures ok && !old(Sole(g.edges, Leaf(pd, p))) ==> Spare() == old(Spare()) - 1
    {
      hide Inv, FreeOk, CountsOk, RangeOk, UniqueOk, TreeOk, MapsOk, CowOk, KernelOk;
      LeafHasTable(pd, p);
      SpareMeans();
      var pa := CopyFrame(pd, p, t);
      if pa.None? {
        return false;
      }
      ghost var g1 := g;
      Detach(pd, p, t);
      ghost var g3 := g;
      StillShared(old(g), g1, g3, pd, p);
      ok := Pmap(pd, p, pa.value, true, true, 0, 1);
      Settled(old(g), g3, g, pd, p);
    }

    /** alloc and memcpy */
    method CopyFrame(pd: nat, p: VPage, t: nat) returns (pa: Option<nat>)
      requires Valid() && pd in g.live && Mapped(pd, p)
      requires Table(pd, p.i0) in g.edges && g.edges[Table(pd, p.i0)] == t
      modifies this, frames, refs
      ensures pa.None? <==> old(Spare()) == 0
      ensures pa.None? ==> State() == old(State()) && g == old(g)
      ensures pa.Some? ==> Ok() && Spare() == old(Spare()) - 1 && g.live == old(g.live)
      ensures pa.Some? ==> g.edges == old(g.edges)[Held(0) := pa.value] && Sole(g.edges, Held(0))
      ensures pa.Some? ==> pa.value < frames.Length && frames[pa.value] == old(PageView(pd, p)) && t < frames.Length
      ensures forall d, p :: View(frames[..], g.edges, d, p) == old(View(frames[..], g.edges, d, p))
      ensures pa.Some? ==> pa.value != t && Held(0) !in old(g.edges) && Held(1) !in g.edges
    {
      hide FreeOk, CountsOk, RangeOk, UniqueOk, TreeOk, MapsOk, CowOk, KernelOk;
      LeafHasTable(pd, p);
      UsesInPool();
      pa := Alloc(0);
      if pa.None? {
        return;
      }
      AllocHold(old(State()), old(g), 0);
      PageWordMeans(pd, p);
      ghost var m1 := State();
      var shared := FrameOf(frames[t][p.i1]);
      FillHeld(m1, g, 0, m1.frames[shared]);
      frames[pa.value] := frames[shared];
      assert State() == m1.(frames := m1.frames[pa.value := m1.frames[shared]]);
    }

    /** VMM::free(pte & 0xfffff000) and `pte = 0` */
    method Detach(pd: nat, p: VPage, t: nat)
      requires Ok() && pd in g.live && Mapped(pd, p) && Held(1) !in g.edges
      requires Table(pd, p.i0) in g.edges && g.edges[Table(pd, p.i0)] == t
      modifies this`firstFree, this`g, frames, refs
      ensures Ok() && g == DropShadow(PassTo(old(g), Leaf(pd, p), Held(1)), Held(1))
      ensures forall d', p' :: !(d' == pd && p' == p) ==>
        View(frames[..], g.edges, d', p') == old(View(frames[..], g.edges, d', p'))
      ensures t < frames.Length && SameFrames(old(frames[..])[t := frames[t]], frames[..], g.edges)
    {
      hide FreeOk, CountsOk, RangeOk, UniqueOk, TreeOk, MapsOk, CowOk, KernelOk;
      LeafHasTable(pd, p);
      PageWordMeans(pd, p);
      ghost var m2, g2 := State(), g;
      DetachPage(m2, g2, 1, pd, p);
      var f := FrameOf(frames[t][p.i1]);
      Free(f);
      frames[t] := frames[t][p.i1 := 0];
      g := DropShadow(PassTo(g2, Leaf(pd, p), Held(1)), Held(1));
      assert State() == FreeMem(m2, f).(frames := SetWord(FreeMem(m2, f).frames, t, p.i1, 0));
    }

    /** A frame that another reference names is not freed when one page gives it up. */
    lemma StillShared(g0: Shadow, g1: Shadow, g2: Shadow, d: nat, p: VPage)
      requires Leaf(d, p) in g0.edges && Held(1) !in g0.edges && g1.live == g0.live
      requires forall u :: u in g0.edges ==> u in g1.edges && g1.edges[u] == g0.edges[u]
      requires Held(1) !in g1.edges && g2 == DropShadow(PassTo(g1, Leaf(d, p), Held(1)), Held(1))
      ensures !Sole(g0.edges, Leaf(d, p)) ==> g2.free == g1.free
    {
      if !Sole(g0.edges, Leaf(d, p)) {
        var v :| v in g0.edges && g0.edges[v] == g0.edges[Leaf(d, p)] && v != Leaf(d, p);
        assert v in PassTo(g1, Leaf(d, p), Held(1)).edges;
      }
    }

    /** After pmap took over reference 0, only page p of space d and its table have changed. */
    lemma Settled(g0: Shadow, g1: Shadow, g2: Shadow, d: nat, p: VPage)
      requires Quiet(g0, shared) && g2.live == g0.live && Held(0) !in g2.edges
      requires forall u :: u != Held(0) && u != Leaf(d, p) ==> SameUse(g0.edges, g1.edges, u)
      requires forall u :: u != Held(0) && u != Leaf(d, p) && u != Table(d, p.i0) ==>
        SameUse(g1.edges, g2.edges, u)
      ensures Quiet(g2, shared)
      ensures forall u :: u != Leaf(d, p) && u != Table(d, p.i0) ==> SameUse(g0.edges, g2.edges, u)
      ensures forall d', p' :: !(d' == d && p' == p) ==>
        (Leaf(d', p') in g2.edges <==> Leaf(d', p') in g0.edges)
    {
      forall u | u != Leaf(d, p) && u != Table(d, p.i0) ensures SameUse(g0.edges, g2.edges, u) {
        if u != Held(0) {
          assert SameUse(g0.edges, g1.edges, u) && SameUse(g1.edges, g2.edges, u);
        }
      }
      forall u | u in g2.edges ensures !u.Held? && (u.Dir? ==> u.d in g2.live || u.d == shared) {
        if u.Held? || u.Dir? {
          assert SameUse(g0.edges, g1.edges, u) && SameUse(g1.edges, g2.edges, u);
        }
      }
      forall d', p' | !(d' == d && p' == p)
        ensures Leaf(d', p') in g2.edges <==> Leaf(d', p') in g0.edges
      {
        assert SameUse(g0.edges, g1.edges, Leaf(d', p')) && SameUse(g1.edges, g2.edges, Leaf(d', p'));
      }
    }

    /** AddressSpace::handlePageFault for a user address. */
    method HandlePageFault(pd: nat, va: Word) returns (r: Fault)
      requires Valid() && pd in g.live && UserPage(PageOf(va))
      modifies this, frames, refs
      ensures Valid() && g.live == old(g.live)
      ensures r == Bad <==> old(MappedWritable(pd, PageOf(va)))
      ensures r == Resolved ==> MappedWritable(pd, PageOf(va))
      ensures forall d, p :: View(frames[..], g.edges, d, p) == old(View(frames[..], g.edges, d, p))
      ensures forall d, p :: !(d == pd && p == PageOf(va)) ==>
        (Leaf(d, p) in g.edges <==> Leaf(d, p) in old(g.edges))
      ensures r == NoFrames ==> Exhausted()
      ensures r == NoFrames <==> old(Spare()) < old(FaultFrames(pd, PageOf(va)))
      ensures r == Resolved ==> Spare() == old(Spare()) - old(FaultFrames(pd, PageOf(va)))
    {
      hide FreeOk, CountsOk, RangeOk, UniqueOk, TreeOk, MapsOk, CowOk, KernelOk;
      var p := PageOf(va);
      if Mapped(pd, p) {
        LeafHasTable(pd, p);
      }
      var t := GetPTE(pd, p.i0, 1);
      if t.None? {
        return NoFrames;
      }
      PageWordMeans(pd, p);
      var pte := frames[t.value][p.i1];
      if !Present(pte) {
        var ok := DemandZero(pd, p);
        return if ok then Resolved else NoFrames;
      } else if !Writable(pte) {
        LeafHasTable(pd, p);
        if refs[FrameOf(pte)] == 1 {
          GrantWrite(pd, p, t.value);
          return Resolved;
        } else {
          var ok := CopyPage(pd, p, t.value);
          return if ok then Resolved else NoFrames;
        }
      } else {
        return Bad;
      }
    }

    // ---- what the hardware does for a user instruction

    /** The two-level walk of the page tables lets user code read page p. */
    predicate UserReads(pd: nat, p: VPage)
      requires pd < frames.Length && UserPage(p)
      reads this, frames
    {
      var pde := frames[pd][p.i0];
      Present(pde) && ForUser(pde) && FrameOf(pde) < frames.Length &&
      var pte := frames[FrameOf(pde)][p.i1];
      Present(pte) && ForUser(pte) && FrameOf(pte) < frames.Length
    }

    /** The walk also finds the write bit at both levels. */
    predicate UserWrites(pd: nat, p: VPage)
      requires pd < frames.Length && UserPage(p)
      reads this, frames
    {
      UserReads(pd, p) &&
      var pde := frames[pd][p.i0];
      Writable(pde) && Writable(frames[FrameOf(pde)][p.i1])
    }

    /** The frame the walk ends in. */
    function UserFrame(pd: nat, p: VPage): (f: nat)
      requires pd < frames.Length && UserPage(p) && UserReads(pd, p)
      reads this, frames
      ensures f < frames.Length
    {
      FrameOf(frames[FrameOf(frames[pd][p.i0])][p.i1])
    }

    /** The walk agrees with the references: what is mapped is what user code can reach. */
    lemma WalkMeans(pd: nat, p: VPage)
      requires Ok() && pd in g.live && UserPage(p)
      ensures pd < frames.Length
      ensures UserReads(pd, p) <==> Mapped(pd, p)
      ensures UserWrites(pd, p) <==> MappedWritable(pd, p)
      ensures Mapped(pd, p) ==> UserFrame(pd, p) == g.edges[Leaf(pd, p)] && PageView(pd, p) == frames[UserFrame(pd, p)]
    {
      hide FreeOk, CountsOk, RangeOk, UniqueOk, TreeOk, MapsOk, CowOk, KernelOk;
      DirWordMeans(pd, p.i0);
      if Table(pd, p.i0) in g.edges {
        PageWordMeans(pd, p);
      }
      if Mapped(pd, p) {
        LeafHasTable(pd, p);
      }
    }

    /** A user load: None where the fault it takes finds no frame. */
    method UserLoad(pd: nat, va: Word) returns (r: Option<Word>)
      requires Valid() && pd in g.live && UserPage(PageOf(va))
      modifies this, frames, refs
      ensures Valid() && g.live == old(g.live)
      ensures r.Some? ==> r.value == old(PageView(pd, PageOf(va)))[WordOf(va)]
      ensures forall d, p :: View(frames[..], g.edges, d, p) == old(View(frames[..], g.edges, d, p))
      ensures forall d, p :: !(d == pd && p == PageOf(va)) ==>
        (Leaf(d, p) in g.edges <==> Leaf(d, p) in old(g.edges))
      ensures r.None? ==> Exhausted()
      ensures var need := old(if Mapped(pd, PageOf(va)) then 0 else FaultFrames(pd, PageOf(va)));
        (r.None? <==> old(Spare()) < need) && (r.Some? ==> Spare() == old(Spare()) - need)
    {
      hide FreeOk, CountsOk, RangeOk, UniqueOk, TreeOk, MapsOk, CowOk, KernelOk;
      var p := PageOf(va);
      WalkMeans(pd, p);
      if !UserReads(pd, p) {
        var f := HandlePageFault(pd, va);
        if f == NoFrames {
          return None;
        }
      }
      WalkMeans(pd, p);
      return Some(frames[UserFrame(pd, p)][WordOf(va)]);
    }

    /** A user store: one fault at most, after which the retried instruction goes through. */
    method UserStore(pd: nat, va: Word, x: Word) returns (ok: bool)
      requires Valid() && pd in g.live && UserPage(PageOf(va))
      modifies this, frames, refs
      ensures Valid() && g.live == old(g.live)
      ensures forall d, p :: !(d == pd && p == PageOf(va)) ==>
        View(frames[..], g.edges, d, p) == old(View(frames[..], g.edges, d, p))
      ensures PageView(pd, PageOf(va)) ==
        if ok then old(PageView(pd, PageOf(va)))[WordOf(va) := x] else old(PageView(pd, PageOf(va)))
      ensures forall d, p :: !(d == pd && p == PageOf(va)) ==>
        (Leaf(d, p) in g.edges <==> Leaf(d, p) in old(g.edges))
      ensures !ok ==> Exhausted()
      ensures var need := old(if MappedWritable(pd, PageOf(va)) then 0 else FaultFrames(pd, PageOf(va)));
        (ok <==> old(Spare()) >= need) && (ok ==> Spare() == old(Spare()) - need)
    {
      hide FreeOk, CountsOk, RangeOk, UniqueOk, TreeOk, MapsOk, CowOk, KernelOk;
      var p := PageOf(va);
      WalkMeans(pd, p);
      if !UserWrites(pd, p) {
        var f := HandlePageFault(pd, va);
        if f == NoFrames {
          return false;
        }
      }
      WalkMeans(pd, p);
      var f := UserFrame(pd, p);
      StorePage(State(), g, pd, p, frames[f][WordOf(va) := x]);
      label before:
      frames[f] := frames[f][WordOf(va) := x];
      assert State() == old@before(State()).(frames := old@before(State()).frames[f := frames[f]]);
      return true;
    }

    // ---- creating an address space

    /** AddressSpace::AddressSpace(false): a directory that starts as a copy of the shared one. */
    method NewSpace() returns (r: Option<nat>)
      requires Valid()
      modifies this, frames, refs
      ensures Valid()
      ensures r.None? ==> g == old(g)
      ensures r.Some? ==> r.value !in old(g.live) && g.live == old(g.live) + {r.value}
      ensures r.Some? ==> Dir(r.value) !in old(g.edges)
      ensures r.Some? ==> forall p :: Leaf(r.value, p) !in g.edges
      ensures r.Some? ==> forall u :: u != Dir(r.value) ==> SameUse(old(g.edges), g.edges, u)
      ensures forall d, p :: View(frames[..], g.edges, d, p) == old(View(frames[..], g.edges, d, p))
      ensures r.None? ==> Exhausted()
      ensures (r.None? <==> old(Spare()) == 0) && (r.Some? ==> Spare() == old(Spare()) - 1)
      ensures r.Some? ==> r.value == NextFrame(old(State()))
    {
      hide FreeOk, CountsOk, RangeOk, UniqueOk, TreeOk, MapsOk, CowOk, KernelOk;
      var f := Alloc(0);
      if f.None? {
        return None;
      }
      AllocHold(old(State()), old(g), 0);
      ghost var m1 := State();
      var pd := f.value;
      SharedApart(0);
      for i := 0 to 1024
        invariant frames[..] == m1.frames[pd := frames[pd]]
        invariant frames[pd][..i] == m1.frames[shared][..i]
        modifies frames
      {
        frames[pd] := frames[pd][i := frames[shared][i]];
      }
      assert frames[pd] == m1.frames[shared];
      assert State() == m1.(frames := m1.frames[pd := m1.frames[shared]]);
      LinkDir(m1, g, 0);
      g := PassTo(g, Held(0), Dir(pd)).(live := g.live + {pd});
      return Some(pd);
    }

    lemma SharedApart(k: nat)
      requires Ok() && Held(k) in g.edges && Sole(g.edges, Held(k))
      ensures shared < frames.Length && g.edges[Held(k)] != shared
    {
      assert g.edges[Dir(shared)] == shared;
    }

    // ---- fork

    /** The frames that fork takes for one page: none for the page, one for the child's page table if it has none. */
    ghost function ForkFrames(parent: nat, child: nat, p: VPage): int
      reads this
    {
      if Mapped(parent, p) && Table(child, p.i0) !in g.edges then 1 else 0
    }

    /** The body of the loop of sys_call::fork for one page: false where the kernel runs out of frames. */
    method ForkPage(parent: nat, child: nat, p: VPage) returns (ok: bool)
      requires Valid() && parent in g.live && child in g.live && parent != child
      requires UserPage(p) && !Mapped(child, p)
      modifies this, frames, refs
      ensures ok ==> Valid() && g.live == old(g.live)
      ensures ok ==> PageView(child, p) == old(PageView(parent, p))
      ensures ok ==> forall d', p' :: !(d' == child && p' == p) ==>
        View(frames[..], g.edges, d', p') == old(View(frames[..], g.edges, d', p'))
      ensures ok ==> (Mapped(child, p) <==> old(Mapped(parent, p)))
      ensures ok ==> forall u :: u != Leaf(child, p) && u != Table(child, p.i0) ==>
        SameUse(old(g.edges), g.edges, u)
      ensures ok ==> !MappedWritable(parent, p) && !MappedWritable(child, p)
      ensures ok && old(Mapped(parent, p)) ==>
        Mapped(child, p) && g.edges[Leaf(child, p)] == old(g.edges[Leaf(parent, p)])
      ensures ok ==> (Table(child, p.i0) in g.edges <==> old(Table(child, p.i0) in g.edges || Mapped(parent, p)))
      ensures ok ==> Spare() == old(Spare() - ForkFrames(parent, child, p))
      ensures ok <==> old(Spare() >= ForkFrames(parent, child, p))
      ensures !ok ==> Exhausted()
    {
      hide FreeOk, CountsOk, RangeOk, UniqueOk, TreeOk, MapsOk, CowOk, KernelOk;
      DirWordMeans(parent, p.i0);
      if Mapped(parent, p) {
        LeafHasTable(parent, p);
      }
      var pde := frames[parent][p.i0];
      if Present(pde) {
        var t := FrameOf(pde);
        PageWordMeans(parent, p);
        var pte := frames[t][p.i1];
        if Present(pte) {
          ok := SharePage(parent, child, p, t);
          return ok;
        }
      }
      return true;
    }

    /** Entry (i0, i1) comes before page p in the order of the loops of fork. */
    predicate Before(p: VPage, i0: nat, i1: nat) { p.i0 < i0 || (p.i0 == i0 && p.i1 < i1) }

    /** What the loops of fork have achieved when they reach entry (i0, i1). */
    ghost predicate Copied(frames0: seq<Page>, g0: Shadow, parent: nat, child: nat, i0: nat, i1: nat)
      reads this, frames
    {
      && (forall p :: UserPage(p) && Before(p, i0, i1) ==>
            View(frames[..], g.edges, child, p) == View(frames0, g0.edges, parent, p))
      && (forall p :: UserPage(p) && !Before(p, i0, i1) ==> Leaf(child, p) !in g.edges)
      && (forall d, p :: d != child ==> View(frames[..], g.edges, d, p) == View(frames0, g0.edges, d, p))
      && (forall u :: !OfSpace(u, child) ==> SameUse(g0.edges, g.edges, u))
    }

    /** Every page copied so far is on the parent's own frame, and a page not mapped there is not mapped. */
    ghost predicate OnSameFrames(e0: map<Use, nat>, e: map<Use, nat>, parent: nat, child: nat, i0: nat, i1: nat) {
      forall p :: UserPage(p) && Before(p, i0, i1) ==> SameFrame(e0, parent, e, child, p)
    }

    ghost predicate SameFrame(e: map<Use, nat>, d: nat, e': map<Use, nat>, d': nat, p: VPage) {
      && (Leaf(d, p) in e <==> Leaf(d', p) in e')
      && (Leaf(d, p) in e && Leaf(d', p) in e' ==> e'[Leaf(d', p)] == e[Leaf(d, p)])
    }

    /** Directory entry j covers a page of the parent that comes before (i0, i1). */
    ghost predicate Covers(e0: map<Use, nat>, parent: nat, j: nat, i0: nat, i1: nat) {
      exists p :: UserPage(p) && p.i0 == j && Before(p, i0, i1) && Leaf(parent, p) in e0
    }

    /** The child has the page tables it had, and those that its pages so far need. */
    ghost predicate TablesFor(e0: map<Use, nat>, e: map<Use, nat>, parent: nat, child: nat, i0: nat, i1: nat) {
      forall j :: Table(child, j) in e <==> Table(child, j) in e0 || Covers(e0, parent, j, i0, i1)
    }

    /** The page tables that fork makes for directory entries 512 to i0. */
    ghost function NewTables(e0: map<Use, nat>, parent: nat, child: nat, i0: nat): nat
      decreases i0
    {
      if i0 <= 512 then 0
      else
        NewTables(e0, parent, child, i0 - 1)
        + (if Table(child, i0 - 1) !in e0 && Covers(e0, parent, i0 - 1, i0, 0) then 1 else 0)
    }

    /** Whether the entry that the loop is at has got a new page table yet. */
    ghost function TableAt(e0: map<Use, nat>, parent: nat, child: nat, i0: nat, i1: nat): nat {
      if Table(child, i0) !in e0 && Covers(e0, parent, i0, i0, i1) then 1 else 0
    }

    lemma {:induction false} NewTablesGrow(e0: map<Use, nat>, parent: nat, child: nat, i0: nat, i1: nat)
      requires i0 <= i1
      ensures NewTables(e0, parent, child, i0) <= NewTables(e0, parent, child, i1)
      decreases i1
    {
      if i0 < i1 { NewTablesGrow(e0, parent, child, i0, i1 - 1); }
    }

    /**
      The page loops of sys_call::fork, run without interruption.  They take no frame for a page,
      only for the page tables that the child needs.
    */
    method ForkPages(parent: nat, child: nat) returns (ok: bool)
      requires Valid() && parent in g.live && child in g.live && parent != child
      requires forall p :: Leaf(child, p) !in g.edges
      modifies this, frames, refs
      ensures ok ==> Valid() && g.live == old(g.live)
      ensures ok ==> Copied(old(frames[..]), old(g), parent, child, 960, 0)
      ensures ok ==> OnSameFrames(old(g.edges), g.edges, parent, child, 960, 0)
      ensures ok ==> TablesFor(old(g.edges), g.edges, parent, child, 960, 0)
      ensures ok ==> Spare() == old(Spare() - NewTables(g.edges, parent, child, 960))
      ensures ok <==> old(Spare() >= NewTables(g.edges, parent, child, 960))
      ensures !ok ==> Exhausted()
    {
      hide Inv, Covers, NewTables, OnSameFrames, TablesFor, TableAt, View;
      ghost var e0, s0 := g.edges, Spare();
      LoopBegins(e0, parent, child);
      for i0 := 512 to 960
        invariant Valid() && g.live == old(g.live) && Copied(old(frames[..]), old(g), parent, child, i0, 0)
        invariant OnSameFrames(e0, g.edges, parent, child, i0, 0) && TablesFor(e0, g.edges, parent, child, i0, 0)
        invariant Spare() == s0 - NewTables(e0, parent, child, i0)
      {
        EntryBegins(e0, parent, child, i0);
        for i1 := 0 to 1024
          invariant Valid() && g.live == old(g.live) && Copied(old(frames[..]), old(g), parent, child, i0, i1)
          invariant OnSameFrames(e0, g.edges, parent, child, i0, i1) && TablesFor(e0, g.edges, parent, child, i0, i1)
          invariant Spare() == s0 - NewTables(e0, parent, child, i0) - TableAt(e0, parent, child, i0, i1)
        {
          ghost var frames1, g1 := frames[..], g;
          SpareMeans();
          assert SameUse(e0, g.edges, Leaf(parent, VPage(i0, i1)));
          ok := ForkPage(parent, child, VPage(i0, i1));
          if !ok {
            TableLeft(e0, g1.edges, parent, child, VPage(i0, i1));
            return;
          }
          CopiedOne(old(frames[..]), old(g), frames1, g1, parent, child, VPage(i0, i1));
          SharedOne(e0, g1.edges, g.edges, parent, child, VPage(i0, i1));
        }
        EntryEnds(e0, g.edges, parent, child, i0);
      }
      SpareMeans();
      return true;
    }

    lemma LoopBegins(e0: map<Use, nat>, parent: nat, child: nat)
      ensures OnSameFrames(e0, e0, parent, child, 512, 0) && TablesFor(e0, e0, parent, child, 512, 0)
      ensures NewTables(e0, parent, child, 512) == 0
    {
    }

    lemma EntryBegins(e0: map<Use, nat>, parent: nat, child: nat, i0: nat)
      ensures TableAt(e0, parent, child, i0, 0) == 0
    {
    }

    lemma EntryEnds(e0: map<Use, nat>, e: map<Use, nat>, parent: nat, child: nat, i0: nat)
      requires OnSameFrames(e0, e, parent, child, i0, 1024) && TablesFor(e0, e, parent, child, i0, 1024) && i0 >= 512
      ensures OnSameFrames(e0, e, parent, child, i0 + 1, 0) && TablesFor(e0, e, parent, child, i0 + 1, 0)
      ensures NewTables(e0, parent, child, i0 + 1) ==
        NewTables(e0, parent, child, i0) + TableAt(e0, parent, child, i0, 1024)
    {
      assert forall p :: UserPage(p) ==> (Before(p, i0, 1024) <==> Before(p, i0 + 1, 0));
      forall j ensures Covers(e0, parent, j, i0, 1024) <==> Covers(e0, parent, j, i0 + 1, 0) { }
    }

    /** One more page, on the parent's frame; a page table when it is the first of its entry. */
    lemma SharedOne(e0: map<Use, nat>, e1: map<Use, nat>, e2: map<Use, nat>, parent: nat, child: nat, q: VPage)
      requires OnSameFrames(e0, e1, parent, child, q.i0, q.i1) && TablesFor(e0, e1, parent, child, q.i0, q.i1)
      requires UserPage(q) && parent != child && SameUse(e0, e1, Leaf(parent, q)) && SameFrame(e1, parent, e2, child, q)
      requires Table(child, q.i0) in e2 <==> Table(child, q.i0) in e1 || Leaf(parent, q) in e1
      requires forall u :: u != Leaf(child, q) && u != Table(child, q.i0) ==> SameUse(e1, e2, u)
      ensures OnSameFrames(e0, e2, parent, child, q.i0, q.i1 + 1) && TablesFor(e0, e2, parent, child, q.i0, q.i1 + 1)
      ensures TableAt(e0, parent, child, q.i0, q.i1 + 1) == TableAt(e0, parent, child, q.i0, q.i1)
        + (if Leaf(parent, q) in e1 && Table(child, q.i0) !in e1 then 1 else 0)
    {
      forall p | UserPage(p) && Before(p, q.i0, q.i1 + 1) ensures SameFrame(e0, parent, e2, child, p) {
        if p != q { assert SameUse(e1, e2, Leaf(child, p)); }
      }
      hide Before;
      CoversOne(e0, parent, q);
      forall j ensures Table(child, j) in e2 <==> Table(child, j) in e0 || Covers(e0, parent, j, q.i0, q.i1 + 1) {
        if j != q.i0 { assert SameUse(e1, e2, Table(child, j)); }
      }
    }

    lemma CoversOne(e0: map<Use, nat>, parent: nat, q: VPage)
      requires UserPage(q)
      ensures forall j :: Covers(e0, parent, j, q.i0, q.i1 + 1) <==>
        Covers(e0, parent, j, q.i0, q.i1) || (j == q.i0 && Leaf(parent, q) in e0)
    {
      forall j ensures Covers(e0, parent, j, q.i0, q.i1 + 1) <==>
        Covers(e0, parent, j, q.i0, q.i1) || (j == q.i0 && Leaf(parent, q) in e0)
      {
        if Covers(e0, parent, j, q.i0, q.i1 + 1) && !(j == q.i0 && Leaf(parent, q) in e0) {
          var p :| UserPage(p) && p.i0 == j && Before(p, q.i0, q.i1 + 1) && Leaf(parent, p) in e0;
          assert Before(p, q.i0, q.i1);
        }
        if Covers(e0, parent, j, q.i0, q.i1) {
          var p :| UserPage(p) && p.i0 == j && Before(p, q.i0, q.i1) && Leaf(parent, p) in e0;
          assert Before(p, q.i0, q.i1 + 1);
        }
        if j == q.i0 && Leaf(parent, q) in e0 { assert Before(q, q.i0, q.i1 + 1); }
      }
    }

    /** Where fork runs out of frames it has made every page table but one that it needs. */
    lemma TableLeft(e0: map<Use, nat>, e1: map<Use, nat>, parent: nat, child: nat, q: VPage)
      requires UserPage(q) && TablesFor(e0, e1, parent, child, q.i0, q.i1) && SameUse(e0, e1, Leaf(parent, q))
      requires Leaf(parent, q) in e1 && Table(child, q.i0) !in e1
      ensures TableAt(e0, parent, child, q.i0, q.i1) == 0
      ensures NewTables(e0, parent, child, q.i0) < NewTables(e0, parent, child, 960)
    {
      assert !Covers(e0, parent, q.i0, q.i0, q.i1) && Table(child, q.i0) !in e0;
      assert Before(q, q.i0 + 1, 0);
      NewTablesGrow(e0, parent, child, q.i0 + 1, 960);
    }

    lemma CopiedOne(frames0: seq<Page>, g0: Shadow, frames1: seq<Page>, g1: Shadow, parent: nat, child: nat, q: VPage)
      requires UserPage(q) && parent != child
      requires forall p :: UserPage(p) && Before(p, q.i0, q.i1) ==>
        View(frames1, g1.edges, child, p) == View(frames0, g0.edges, parent, p)
      requires forall p :: UserPage(p) && !Before(p, q.i0, q.i1) ==> Leaf(child, p) !in g1.edges
      requires forall d, p :: d != child ==> View(frames1, g1.edges, d, p) == View(frames0, g0.edges, d, p)
      requires forall u :: !OfSpace(u, child) ==> SameUse(g0.edges, g1.edges, u)
      requires View(frames[..], g.edges, child, q) == View(frames1, g1.edges, parent, q)
      requires forall d, p :: !(d == child && p == q) ==>
        View(frames[..], g.edges, d, p) == View(frames1, g1.edges, d, p)
      requires forall u :: u != Leaf(child, q) && u != Table(child, q.i0) ==> SameUse(g1.edges, g.edges, u)
      ensures Copied(frames0, g0, parent, child, q.i0, q.i1 + 1)
    {
      hide View;
      forall p | UserPage(p) && Before(p, q.i0, q.i1 + 1)
        ensures View(frames[..], g.edges, child, p) == View(frames0, g0.edges, parent, p)
      {
        if p != q {
          assert Before(p, q.i0, q.i1);
        }
      }
      forall p | UserPage(p) && !Before(p, q.i0, q.i1 + 1) ensures Leaf(child, p) !in g.edges {
        assert SameUse(g1.edges, g.edges, Leaf(child, p));
      }
      forall u | !OfSpace(u, child) ensures SameUse(g0.edges, g.edges, u) {
        assert SameUse(g0.edges, g1.edges, u) && SameUse(g1.edges, g.edges, u);
      }
    }

    /**
      fork, then `delete` of the child's address space before the child ran: every reference
      count is what it was, and no page of any other space has changed.
    */
    method ForkAndDestroy(parent: nat) returns (ok: bool)
      requires Valid() && parent in g.live
      modifies this, frames, refs
      ensures ok ==> Valid() && g.live == old(g.live) && g.edges == old(g.edges)
      ensures ok ==> refs[..] == old(refs[..])
      ensures ok ==> forall d, p :: d in g.live ==>
        View(frames[..], g.edges, d, p) == old(View(frames[..], g.edges, d, p))
      ensures ok ==> Spare() == old(Spare())
      ensures ok <==> old(Spare() > NewTables(g.edges, parent, NextFrame(State()), 960))
      ensures !ok ==> Exhausted()
    {
      hide Inv, NewTables, Covers, OnSameFrames, TablesFor, View;
      ghost var m0, g0 := State(), g;
      SpareMeans();
      var child := NewSpace();
      if child.None? {
        return false;
      }
      ghost var g1 := g;
      NewTablesSame(g0.edges, g1.edges, parent, child.value, 960);
      SpareMeans();
      ok := ForkPages(parent, child.value);
      if ok {
        NoneOfChild(m0, g0, child.value);
        Restored(g0, g1, g, child.value);
        Destroy(child.value);
        SameEdgesSameCounts(m0, g0, State(), g);
        SpareIs(m0, g0);
        SpareIs(State(), g);
        assert Idle(State(), start) == Idle(m0, start);
      }
    }

    lemma {:induction false} NewTablesSame(e0: map<Use, nat>, e1: map<Use, nat>, parent: nat, child: nat, i0: nat)
      requires forall u :: u != Dir(child) ==> SameUse(e0, e1, u)
      ensures NewTables(e1, parent, child, i0) == NewTables(e0, parent, child, i0)
      decreases i0
    {
      if i0 > 512 {
        NewTablesSame(e0, e1, parent, child, i0 - 1);
        assert SameUse(e0, e1, Table(child, i0 - 1));
        forall p ensures Leaf(parent, p) in e0 <==> Leaf(parent, p) in e1 {
          assert SameUse(e0, e1, Leaf(parent, p));
        }
        assert Covers(e0, parent, i0 - 1, i0, 0) <==> Covers(e1, parent, i0 - 1, i0, 0);
      }
    }

    lemma Restored(g0: Shadow, g1: Shadow, g2: Shadow, d: nat)
      requires forall u :: u in g0.edges ==> !OfSpace(u, d)
      requires forall u :: u != Dir(d) ==> SameUse(g0.edges, g1.edges, u)
      requires forall u :: !OfSpace(u, d) ==> SameUse(g1.edges, g2.edges, u)
      ensures Without(g2.edges, d) == g0.edges
    {
      var e := Without(g2.edges, d);
      forall u ensures (u in e <==> u in g0.edges) && (u in e ==> e[u] == g0.edges[u]) {
        if !OfSpace(u, d) {
          assert SameUse(g0.edges, g1.edges, u) && SameUse(g1.edges, g2.edges, u);
        }
      }
    }

    lemma NoneOfChild(m0: Mem, g0: Shadow, d: nat)
      requires Inv(m0, g0) && Quiet(g0, shared) && d !in g0.live && Dir(d) !in g0.edges
      ensures forall u :: u in g0.edges ==> !OfSpace(u, d)
    {
      forall u | u in g0.edges ensures !OfSpace(u, d) {
        match u
        case Leaf(d', p) => assert Table(d', p.i0) in g0.edges && Dir(d') in g0.edges;
        case Table(d', i0) => assert Dir(d') in g0.edges;
        case _ =>
      }
    }

    /** The innermost statements: clear W in the parent, count the child's reference, map it read-only. */
    method SharePage(parent: nat, child: nat, p: VPage, t: nat) returns (ok: bool)
      requires Valid() && parent in g.live && child in g.live && parent != child
      requires UserPage(p) && !Mapped(child, p) && Mapped(parent, p)
      requires Table(parent, p.i0) in g.edges && g.edges[Table(parent, p.i0)] == t < frames.Length
      modifies this, frames, refs
      ensures ok ==> Valid() && g.live == old(g.live)
      ensures ok ==> PageView(child, p) == old(PageView(parent, p))
      ensures ok ==> forall d', p' :: !(d' == child && p' == p) ==>
        View(frames[..], g.edges, d', p') == old(View(frames[..], g.edges, d', p'))
      ensures ok ==> Mapped(child, p)
      ensures ok ==> forall u :: u != Leaf(child, p) && u != Table(child, p.i0) ==>
        SameUse(old(g.edges), g.edges, u)
      ensures ok ==> !MappedWritable(parent, p) && !MappedWritable(child, p)
      ensures ok ==> g.edges[Leaf(child, p)] == old(g.edges[Leaf(parent, p)])
      ensures ok ==> Table(child, p.i0) in g.edges
      ensures ok ==> refs[g.edges[Leaf(child, p)]] == old(refs[..])[g.edges[Leaf(child, p)]] + 1
      ensures ok ==> Spare() == old(Spare() - ForkFrames(parent, child, p))
      ensures ok <==> old(Spare() >= ForkFrames(parent, child, p))
      ensures !ok ==> Exhausted()
    {
      hide FreeOk, CountsOk, RangeOk, UniqueOk, TreeOk, MapsOk, CowOk, KernelOk;
      PageWordMeans(parent, p);
      LeafHasTable(parent, p);
      ghost var m0, g0 := State(), g;
      var pte := frames[t][p.i1];
      var pa := FrameOf(pte);
      ChangeWrite(m0, g0, parent, p, WithoutW(pte));
      frames[t] := frames[t][p.i1 := WithoutW(pte)];
      ghost var m1 := State();
      assert m1 == m0.(frames := SetWord(m0.frames, t, p.i1, WithoutW(pte)));
      Hold(m1, g0, 0, Leaf(parent, p));
      refs[pa] := refs[pa] + 1;
      g := g.(edges := g.edges[Held(0) := pa]);
      assert State() == m1.(refs := m1.refs[pa := m1.refs[pa] + 1]);
      ok := Pmap(child, p, pa, true, false, 0, 1);
      if ok {
        Settled(g0, g0.(edges := g0.edges[Held(0) := pa]), g, child, p);
        assert SameUse(g0.edges, g.edges, Leaf(parent, p));
        SharedReadOnly(parent, child, p, pa);
        CountedMore(m0, g0, State(), g, child, p, Leaf(parent, p));
      }
    }

    /** One page more that maps a frame, and nothing else, is one reference more. */
    lemma CountedMore(m0: Mem, g0: Shadow, m1: Mem, g1: Shadow, d: nat, p: VPage, w: Use)
      requires Inv(m0, g0) && Inv(m1, g1) && m1.limit == m0.limit && Leaf(d, p) !in g0.edges && Leaf(d, p) in g1.edges
      requires forall u :: u != Leaf(d, p) && u != Table(d, p.i0) ==> SameUse(g0.edges, g1.edges, u)
      requires w.Leaf? && w in g0.edges && g0.edges[w] == g1.edges[Leaf(d, p)]
      ensures g1.edges[Leaf(d, p)] < |m0.refs| == |m1.refs|
      ensures m1.refs[g1.edges[Leaf(d, p)]] == m0.refs[g1.edges[Leaf(d, p)]] + 1
    {
      hide FreeOk, TreeOk, MapsOk, CowOk, KernelOk;
      var f := g1.edges[Leaf(d, p)];
      forall u ensures u in Holders(g1.edges, f) <==> u in Holders(g0.edges, f) + {Leaf(d, p)} {
        if u == Table(d, p.i0) {
          assert !Sharable(u);
        } else if u != Leaf(d, p) {
          assert SameUse(g0.edges, g1.edges, u);
        }
      }
      assert Holders(g1.edges, f) == Holders(g0.edges, f) + {Leaf(d, p)};
    }

    /** A frame that two pages map is writable through neither. */
    lemma SharedReadOnly(parent: nat, child: nat, p: VPage, f: nat)
      requires Ok() && parent in g.live && child in g.live && parent != child
      requires Leaf(parent, p) in g.edges && Leaf(child, p) in g.edges
      requires g.edges[Leaf(parent, p)] == f && g.edges[Leaf(child, p)] == f
      ensures !MappedWritable(parent, p) && !MappedWritable(child, p)
    {
    }

    // ---- destroying an address space

    /** One counted reference of a space being destroyed goes, with its frame when it was the last. */
    method Release(f: nat, ghost u: Use)
      requires Ok() && u in g.edges && g.edges[u] == f && Droppable(g, shared, u)
      modifies this, frames, refs
      ensures Ok() && g.edges == old(g.edges) - {u} && g.live == old(g.live)
      ensures SameFrames(old(frames[..]), frames[..], g.edges)
    {
      hide FreeOk, CountsOk, RangeOk, UniqueOk, TreeOk, MapsOk, CowOk, KernelOk;
      AllocReady();
      Drop(State(), g, u);
      Free(f);
      g := DropShadow(g, u);
    }

    /** The inner loop of the destructor, over the pages of the page table at i0, and the table itself. */
    method FreeTable(pd: nat, i0: nat, t: nat, ghost m0: Mem, ghost g0: Shadow)
      requires Ok() && Inv(m0, g0) && pd in g0.live && pd !in g.live && UserDir(i0) && pd != shared
      requires Table(pd, i0) in g0.edges && g0.edges[Table(pd, i0)] == t < frames.Length == |m0.frames|
      requires g.edges == Left(g0.edges, pd, i0, 0) && SameFrames(m0.frames, frames[..], g.edges)
      modifies this, frames, refs
      ensures Ok() && g.live == old(g.live)
      ensures g.edges == Left(g0.edges, pd, i0 + 1, 0) && SameFrames(m0.frames, frames[..], g.edges)
    {
      hide FreeOk, CountsOk, RangeOk, UniqueOk, TreeOk, MapsOk, CowOk, KernelOk;
      ghost var e := g0.edges;
      for i1 := 0 to 1024
        invariant Ok() && g.live == old(g.live)
        invariant g.edges == Left(e, pd, i0, i1) && SameFrames(m0.frames, frames[..], g.edges)
      {
        ghost var p := VPage(i0, i1);
        assert Table(pd, i0) in g.edges && frames[t] == m0.frames[t];
        OldPage(m0, g0, pd, p);
        LeftLeaf(e, pd, p);
        var pte := frames[t][i1];
        if Present(pte) {
          Release(FrameOf(pte), Leaf(pd, p));
        }
      }
      LeavesGone(m0, g0, pd, i0);
      Release(t, Table(pd, i0));
    }

    lemma OldPage(m0: Mem, g0: Shadow, d: nat, p: VPage)
      requires Inv(m0, g0) && d in g0.live && UserPage(p) && Table(d, p.i0) in g0.edges
      ensures g0.edges[Table(d, p.i0)] < |m0.frames|
      ensures var w := m0.frames[g0.edges[Table(d, p.i0)]][p.i1];
        && (Present(w) <==> Leaf(d, p) in g0.edges)
        && (Leaf(d, p) in g0.edges ==> FrameOf(w) == g0.edges[Leaf(d, p)])
    {
      assert EntryOk(Pte(m0.frames, g0.edges, d, p), g0.edges, Leaf(d, p));
    }

    lemma LeftLeaf(e: map<Use, nat>, d: nat, p: VPage)
      ensures Left(e, d, p.i0, p.i1 + 1) == Left(e, d, p.i0, p.i1) - {Leaf(d, p)}
      ensures Leaf(d, p) in Left(e, d, p.i0, p.i1) <==> Leaf(d, p) in e
    {
    }

    lemma LeavesGone(m0: Mem, g0: Shadow, d: nat, i0: nat)
      requires Inv(m0, g0)
      ensures forall p: VPage :: p.i0 == i0 ==> Leaf(d, p) !in Left(g0.edges, d, i0, 1024)
      ensures Left(g0.edges, d, i0 + 1, 0) == Left(g0.edges, d, i0, 1024) - {Table(d, i0)}
    {
      hide FreeOk, CountsOk, RangeOk, UniqueOk, MapsOk, CowOk, KernelOk;
      forall p: VPage | p.i0 == i0 && Leaf(d, p) in g0.edges ensures Gone(Leaf(d, p), d, i0, 1024) {
        assert UserPage(p);
      }
      var a, b := Left(g0.edges, d, i0 + 1, 0), Left(g0.edges, d, i0, 1024) - {Table(d, i0)};
      forall u ensures u in a <==> u in b {
        if u.Leaf? && u in g0.edges {
          assert Leaf(u.d, u.p) in g0.edges;
        }
      }
    }

    /** AddressSpace::~AddressSpace */
    method Destroy(pd: nat)
      requires Valid() && pd in g.live
      modifies this, frames, refs
      ensures Valid() && g.live == old(g.live) - {pd}
      ensures g.edges == Without(old(g.edges), pd)
      ensures forall d, p :: d != pd ==> View(frames[..], g.edges, d, p) == old(View(frames[..], g.edges, d, p))
    {
      hide FreeOk, CountsOk, RangeOk, UniqueOk, TreeOk, MapsOk, CowOk, KernelOk;
      ghost var m0, g0 := State(), g;
      Retire(m0, g0, pd);
      g := g.(live := g.live - {pd});
      SpaceBounds(m0, g0, pd);
      assert Left(g0.edges, pd, 0, 0) == g0.edges;
      for i0 := 0 to 1024
        invariant Ok() && g.live == g0.live - {pd}
        invariant g.edges == Left(g0.edges, pd, i0, 0) && SameFrames(m0.frames, frames[..], g.edges)
      {
        DirStays(m0, g0, pd, i0);
        if frames[shared][i0] != 0 {
          NoTable(m0, g0, pd, i0);
          continue;
        }
        var pde := frames[pd][i0];
        OldTable(m0, g0, pd, i0);
        if Present(pde) {
          FreeTable(pd, i0, FrameOf(pde), m0, g0);
        } else {
          NoTable(m0, g0, pd, i0);
        }
      }
      DirLast(m0, g0, pd);
      Release(pd, Dir(pd));
      Survivors(m0, g0, pd);
    }

    lemma SpaceBounds(m0: Mem, g0: Shadow, d: nat)
      requires Inv(m0, g0) && d in g0.live
      ensures d < |m0.frames| && m0.shared < |m0.frames| && d != m0.shared
      ensures Dir(d) in g0.edges && Dir(m0.shared) in g0.edges
      ensures g0.edges[Dir(d)] == d && g0.edges[Dir(m0.shared)] == m0.shared
    {
    }

    /** The two directories the destructor reads keep their words to the end. */
    lemma DirStays(m0: Mem, g0: Shadow, d: nat, i0: nat)
      requires Inv(m0, g0) && d in g0.live && m0.shared == shared
      requires g.edges == Left(g0.edges, d, i0, 0) && SameFrames(m0.frames, frames[..], g.edges)
      ensures d < frames.Length && shared < frames.Length && d != shared
      ensures frames[d] == m0.frames[d] && frames[shared] == m0.frames[shared]
    {
      hide FreeOk, CountsOk, RangeOk, UniqueOk, TreeOk, MapsOk, CowOk, KernelOk;
      SpaceBounds(m0, g0, d);
      assert Dir(d) in g.edges && Dir(shared) in g.edges;
    }

    /** A word of the directory at the start: a table in the user part, the shared word elsewhere. */
    lemma OldTable(m0: Mem, g0: Shadow, d: nat, i0: nat)
      requires Inv(m0, g0) && d in g0.live && i0 < 1024
      ensures d < |m0.frames| && m0.shared < |m0.frames|
      ensures UserDir(i0) ==> m0.frames[m0.shared][i0] == 0
      ensures UserDir(i0) ==> (Present(m0.frames[d][i0]) <==> Table(d, i0) in g0.edges)
      ensures UserDir(i0) && Table(d, i0) in g0.edges ==>
        FrameOf(m0.frames[d][i0]) == g0.edges[Table(d, i0)] < |m0.frames|
      ensures !UserDir(i0) ==> m0.frames[d][i0] == m0.frames[m0.shared][i0] && Table(d, i0) !in g0.edges
    {
      SpaceBounds(m0, g0, d);
      assert Pde(m0.frames, m0.shared, i0) == m0.frames[m0.shared][i0];
      if UserDir(i0) {
        assert DirEntryOk(Pde(m0.frames, d, i0), g0.edges, Table(d, i0));
      } else {
        assert Pde(m0.frames, d, i0) == Pde(m0.frames, m0.shared, i0);
      }
    }

    lemma NoTable(m0: Mem, g0: Shadow, d: nat, i0: nat)
      requires Inv(m0, g0) && d in g0.live && i0 < 1024
      requires m0.shared < |m0.frames| && d < |m0.frames|
      requires m0.frames[m0.shared][i0] != 0 || !Present(m0.frames[d][i0])
      ensures Left(g0.edges, d, i0 + 1, 0) == Left(g0.edges, d, i0, 0)
    {
      hide FreeOk, CountsOk, RangeOk, UniqueOk, TreeOk, MapsOk, CowOk, KernelOk;
      OldTable(m0, g0, d, i0);
      LeavesGone(m0, g0, d, i0);
      LeafTable(m0, g0, d, i0);
      var a, b := Left(g0.edges, d, i0 + 1, 0), Left(g0.edges, d, i0, 0);
      forall u ensures u in a <==> u in b {
        if u.Leaf? && u in g0.edges {
          assert Leaf(u.d, u.p) in g0.edges;
        }
      }
    }

    lemma LeafTable(m0: Mem, g0: Shadow, d: nat, i0: nat)
      requires Inv(m0, g0) && Table(d, i0) !in g0.edges
      ensures forall p: VPage :: p.i0 == i0 ==> Leaf(d, p) !in g0.edges
    {
    }

    lemma DirLast(m0: Mem, g0: Shadow, d: nat)
      requires Inv(m0, g0) && d in g0.live
      ensures var e := Left(g0.edges, d, 1024, 0);
        && Dir(d) in e && e[Dir(d)] == d && (forall i0 :: Table(d, i0) !in e)
        && e - {Dir(d)} == Without(g0.edges, d)
    {
      var e := Left(g0.edges, d, 1024, 0);
      forall u ensures u in e - {Dir(d)} <==> u in Without(g0.edges, d) {
        if u in g0.edges && OfSpace(u, d) {
          assert u.Table? ==> UserDir(u.i0);
          assert u.Leaf? ==> Leaf(u.d, u.p) in g0.edges && UserPage(u.p);
        }
      }
    }

    lemma Survivors(m0: Mem, g0: Shadow, d: nat)
      requires Inv(m0, g0) && Quiet(g0, shared) && d != shared
      requires g.edges == Without(g0.edges, d) && g.live == g0.live - {d}
      requires SameFrames(m0.frames, frames[..], g.edges)
      ensures Quiet(g, shared)
      ensures forall d', p :: d' != d ==> View(frames[..], g.edges, d', p) == View(m0.frames, g0.edges, d', p)
    {
      forall d', p | d' != d ensures View(frames[..], g.edges, d', p) == View(m0.frames, g0.edges, d', p) {
        assert Leaf(d', p) in g.edges <==> Leaf(d', p) in g0.edges;
      }
    }

    // ---- the shared kernel part, built once while the kernel boots

    /** What the shared directory maps at a kernel page, 0 for nothing. */
    ghost function KernelWord(q: VPage): Word
      reads this, frames
    {
      Walk(frames[..], shared, q)
    }

    /** pmap of a kernel page in the shared address space; it counts no reference. */
    method MapKernel(va: nat, f: nat) returns (ok: bool)
      requires Valid() && g.live == {} && va < 0x10_0000 && !UserDir(va / 1024) && f < 0x10_0000
      modifies this, frames, refs
      ensures Valid() && g.live == {}
      ensures !ok ==> Exhausted()
      ensures forall q :: KernelPage(q) ==>
        KernelWord(q) == (if ok && q == KernelPageAt(va) && !Present(old(KernelWord(q)))
                          then Entry(f, false, true) else old(KernelWord(q)))
    {
      hide FreeOk, CountsOk, RangeOk, UniqueOk, TreeOk, MapsOk, CowOk, KernelOk, Walk, Present;
      ghost var m0, g0 := State(), g;
      var t := GetPTE(shared, va / 1024, 0);
      if t.None? {
        return false;
      }
      ghost var m, i0 := State(), va / 1024;
      if Table(shared, i0) !in g0.edges {
        forall q | KernelPage(q) ensures Walk(m.frames, shared, q) == Walk(m0.frames, shared, q) {
          TableMadeWalk(m0, g0, m, i0, t.value, q);
        }
      }
      var i1 := va % 1024;
      forall q | KernelPage(q) ensures Walk(SetWord(m.frames, t.value, i1, Entry(f, false, true)), shared, q)
        == if q == VPage(i0, i1) then Entry(f, false, true) else Walk(m.frames, shared, q) {
        EntrySetWalk(m, g, i0, i1, Entry(f, false, true), q);
      }
      KernelWordIs(i0, i1);
      if !Present(frames[t.value][i1]) {
        SharedEntry(m, g, i0, i1, Entry(f, false, true));
        frames[t.value] := frames[t.value][i1 := Entry(f, false, true)];
        assert State() == m.(frames := SetWord(m.frames, t.value, i1, Entry(f, false, true)));
      }
      return true;
    }

    function KernelPageAt(va: nat): VPage { VPage(va / 1024, va % 1024) }

    lemma KernelWordIs(i0: nat, i1: nat)
      requires Ok() && i0 < 1024 && !UserDir(i0) && i1 < 1024 && Table(shared, i0) in g.edges
      ensures g.edges[Table(shared, i0)] < frames.Length
      ensures KernelWord(VPage(i0, i1)) == frames[g.edges[Table(shared, i0)]][i1]
    {
      assert DirEntryOk(Pde(frames[..], shared, i0), g.edges, Table(shared, i0));
      KernelTable(State(), g, i0);
    }

    /** One pass of the loops that give the kernel part every page table it will ever have. */
    method FillKernelDir(i0: nat) returns (ok: bool)
      requires Valid() && g.live == {} && i0 < 1024 && !UserDir(i0)
      modifies this, frames, refs
      ensures Valid() && g.live == {}
      ensures ok ==> Pde(frames[..], shared, i0) != 0
      ensures forall i: nat :: i != i0 ==> Pde(frames[..], shared, i) == old(Pde(frames[..], shared, i))
      ensures forall q :: KernelPage(q) ==> KernelWord(q) == old(KernelWord(q))
      ensures !ok ==> Exhausted()
    {
      hide FreeOk, CountsOk, RangeOk, UniqueOk, TreeOk, MapsOk, CowOk, KernelOk, Walk;
      ghost var m0, g0 := State(), g;
      DirWordMeans(shared, i0);
      if frames[shared][i0] == 0 {
        AllocReady();
        TableDistinct(shared);
        var t := Alloc(0);
        if t.None? {
          return false;
        }
        AllocHold(old(State()), old(g), 0);
        SharedApart(0);
        ghost var m1, g1 := State(), g;
        LinkSharedTable(m1, g1, 0, i0);
        frames[shared] := frames[shared][i0 := Entry(t.value, true, true)];
        g := PassTo(g1, Held(0), Table(shared, i0));
        assert State() == m1.(frames := SetWord(m1.frames, shared, i0, Entry(t.value, true, true)));
        forall q | KernelPage(q) ensures Walk(frames[..], shared, q) == Walk(m0.frames, shared, q) {
          TableMadeWalk(m0, g0, State(), i0, t.value, q);
        }
      }
      return true;
    }

    /** Kernel pages 1..n are mapped to the frames of the same number, and `extra` as well; no others are mapped. */
    ghost predicate Identity(n: nat, extra: set<nat>)
      reads this, frames
    {
      forall q :: KernelPage(q) ==>
        var va := q.i0 * 1024 + q.i1; KernelWord(q) == if 1 <= va < n || va in extra then Entry(va, false, true) else 0
    }

    /**
      The rest of AddressSpace::AddressSpace(true): the identity map of physical memory, the two
      APIC pages, and a table for every kernel directory entry.
    */
    method BuildShared(localAPIC: nat, ioAPIC: nat) returns (ok: bool)
      requires Valid() && g.live == {}
      requires forall i0 :: i0 < 1024 ==> Pde(frames[..], shared, i0) == 0
      requires 0xF_0000 <= localAPIC < 0x10_0000 && 0xF_0000 <= ioAPIC < 0x10_0000
      modifies this, frames, refs
      ensures Valid() && g.live == {}
      ensures !ok ==> Exhausted()
      ensures ok ==> Identity(limit, {localAPIC, ioAPIC})
      ensures ok ==> forall i0 :: i0 < 1024 && !UserDir(i0) ==> Pde(frames[..], shared, i0) != 0
    {
      hide Inv, Identity, Quiet, KernelWord;
      AllocReady();
      NoKernelWords();
      var va := 1;
      while va < limit
        invariant 1 <= va && (va <= limit || va == 1) && Valid() && g.live == {} && Identity(va, {})
      {
        ok := MapSame(va, va, {}, va + 1, {});
        if !ok { return; }
        va := va + 1;
      }
      SamePages(va, limit, {});
      ok := MapSame(localAPIC, limit, {}, limit, {localAPIC});
      if !ok { return; }
      ok := MapSame(ioAPIC, limit, {localAPIC}, limit, {localAPIC, ioAPIC});
      if !ok { return; }
      ok := FillKernel(limit, {localAPIC, ioAPIC});
    }

    lemma SamePages(n: nat, n': nat, extra: set<nat>)
      requires Identity(n, extra) && (n == n' || (n <= 1 && n' <= 1))
      ensures Identity(n', extra)
    {
    }

    /** pmap(va, va, false, true) */
    method MapSame(va: nat, ghost n: nat, ghost extra: set<nat>, ghost n': nat,
                   ghost extra': set<nat>) returns (ok: bool)
      requires Valid() && g.live == {} && va < 0x10_0000 && !UserDir(va / 1024) && Identity(n, extra)
      requires forall x: nat :: (1 <= x < n' || x in extra') <==> (x == va || 1 <= x < n || x in extra)
      modifies this, frames, refs
      ensures Valid() && g.live == {}
      ensures !ok ==> Exhausted()
      ensures ok ==> Identity(n', extra')
    {
      hide Inv, Walk, Present, Entry, Quiet;
      KernelPages(va);
      ok := MapKernel(va, va);
    }

    /** The two loops over the kernel's directory entries */
    method FillKernel(ghost n: nat, ghost extra: set<nat>) returns (ok: bool)
      requires Valid() && g.live == {} && Identity(n, extra)
      modifies this, frames, refs
      ensures Valid() && g.live == {}
      ensures !ok ==> Exhausted()
      ensures Identity(n, extra)
      ensures ok ==> forall i0 :: i0 < 1024 && !UserDir(i0) ==> Pde(frames[..], shared, i0) != 0
    {
      hide FreeOk, CountsOk, RangeOk, UniqueOk, TreeOk, MapsOk, CowOk, KernelOk, Walk, Pde;
      ok := true;
      for i := 0 to 512
        invariant Valid() && g.live == {} && forall q :: KernelPage(q) ==> KernelWord(q) == old(KernelWord(q))
        invariant forall i0: nat :: i0 < i ==> Pde(frames[..], shared, i0) != 0
      {
        ok := FillKernelDir(i);
        if !ok { return; }
      }
      for i := 960 to 1024
        invariant Valid() && g.live == {} && forall q :: KernelPage(q) ==> KernelWord(q) == old(KernelWord(q))
        invariant forall i0: nat :: i0 < 512 || 960 <= i0 < i ==> Pde(frames[..], shared, i0) != 0
      {
        ok := FillKernelDir(i);
        if !ok { return; }
      }
      ok := true;
    }

    lemma NoKernelWords()
      requires forall i0 :: i0 < 1024 ==> Pde(frames[..], shared, i0) == 0
      ensures Identity(1, {})
    {
    }

    /** A page number and its two indices; an entry is present, and 0 is not. */
    lemma KernelPages(va: nat)
      requires va < 0x10_0000
      ensures forall q :: KernelPage(q) ==> (q == KernelPageAt(va) <==> q.i0 * 1024 + q.i1 == va)
      ensures !Present(0) && Present(Entry(va, false, true))
    {
    }
  }
}
