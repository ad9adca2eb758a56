/**
  Physical frames, page-table words and the reference-counted frame pool of
  kernel/vmm.cc and kernel/vmm.h, as values, together with the invariant that
  ties them to the references that exist.

  A frame is named by its frame number (physical address / 4096).  Frames hold
  1024 words; page directories, page tables and the links of the free list live
  inside frames, exactly as in the kernel.
*/
module Paging {
  const NUM_FRAMES: nat := 32736
  const USER_LO: nat := 512
  const USER_HI: nat := 960

  type Word = w: int | 0 <= w < 0x1_0000_0000
  type Page = p: seq<Word> | |p| == 1024 witness seq(1024, _ => 0)

  function ZeroPage(): Page { seq(1024, _ => 0) }

  // ---- page-table words: P, W and U bits and the frame number

  predicate Present(w: Word) { w % 2 == 1 }

  predicate Writable(w: Word) { (w / 2) % 2 == 1 }

  predicate ForUser(w: Word) { (w / 4) % 2 == 1 }

  function FrameOf(w: Word): nat { w / 4096 }

  /** The word `pa | U? | W? | P` for the frame-aligned address pa == 4096 * f. */
  function Entry(f: nat, user: bool, write: bool): (w: Word)
    requires f < 0x10_0000
    ensures Present(w) && FrameOf(w) == f && ForUser(w) == user && Writable(w) == write
  {
    4096 * f + (if user then 4 else 0) + (if write then 2 else 0) + 1
  }

  /** Bit 1 is the only one that adding 2 to a word without it changes. */
  lemma SetsW(w: Word)
    requires !Writable(w)
    ensures w + 2 < 0x1_0000_0000 && Writable(w + 2) && FrameOf(w + 2) == FrameOf(w)
    ensures Present(w + 2) == Present(w) && ForUser(w + 2) == ForUser(w)
  {
    var h, q := w / 2, w / 4;
    assert (w + 2) / 2 == h + 1 && h == 2 * q && (w + 2) / 4 == q;
    assert w / 4096 == q / 1024 && (w + 2) / 4096 == q / 1024;
  }

  /** `w | W` */
  function WithW(w: Word): (r: Word)
    ensures Writable(r) && FrameOf(r) == FrameOf(w)
    ensures Present(r) == Present(w) && ForUser(r) == ForUser(w)
  {
    if Writable(w) then w
    else
      SetsW(w);
      w + 2
  }

  /** `w & ~W` */
  function WithoutW(w: Word): (r: Word)
    ensures !Writable(r) && FrameOf(r) == FrameOf(w)
    ensures Present(r) == Present(w) && ForUser(r) == ForUser(w)
  {
    if Writable(w) then
      SetsW(w - 2);
      w - 2
    else w
  }

  // ---- virtual pages

  datatype VPage = VPage(i0: nat, i1: nat)

  predicate UserDir(i0: nat) { USER_LO <= i0 < USER_HI }

  predicate UserPage(p: VPage) { UserDir(p.i0) && p.i1 < 1024 }

  ghost function UserPages(): (s: set<VPage>)
    ensures forall p :: p in s <==> UserPage(p)
  {
    set i0: nat, i1: nat | i0 < 1024 && i1 < 1024 && UserDir(i0) :: VPage(i0, i1)
  }

  /** The two table indices of a virtual address: (va >> 22) & 0x3ff and (va >> 12) & 0x3ff. */
  function PageOf(va: Word): VPage { VPage(va / 0x40_0000, (va / 4096) % 1024) }

  /** The word of its page that a virtual address names. */
  function WordOf(va: Word): (i: nat)
    ensures i < 1024
  {
    va % 4096 / 4
  }

  // ---- physical memory and the frame pool

  datatype Mem = Mem(
    frames: seq<Page>,
    refs: seq<nat>,
    firstFree: Word,   // address of the first free frame, 0 for none
    avail: nat,        // first frame never handed out
    limit: nat,        // first frame beyond the pool
    shared: nat)       // directory of the shared address space

  function SetWord(frames: seq<Page>, f: nat, i: nat, w: Word): seq<Page>
    requires f < |frames| && i < 1024
  {
    frames[f := frames[f][i := w]]
  }

  predicate CanAlloc(m: Mem) { m.firstFree != 0 || m.avail != m.limit }

  /** The frame that the next allocation hands out. */
  function NextFrame(m: Mem): nat {
    if m.firstFree != 0 then FrameOf(m.firstFree) else m.avail
  }

  /** The state after VMM::alloc has handed out NextFrame(m), zeroed, with one reference. */
  function AllocMem(m: Mem): Mem
    requires CanAlloc(m) && NextFrame(m) < |m.frames| == |m.refs|
  {
    var p := NextFrame(m);
    m.(frames := m.frames[p := ZeroPage()],
       refs := m.refs[p := m.refs[p] + 1],
       firstFree := if m.firstFree != 0 then m.frames[p][0] else m.firstFree,
       avail := if m.firstFree != 0 then m.avail else m.avail + 1)
  }

  /** A fresh page table t is entered in directory pd at i0. */
  predicate TableMade(m: Mem, m': Mem, pd: nat, i0: nat, t: nat) {
    && CanAlloc(m) && t == NextFrame(m) && t < |m.frames| == |m.refs| && pd < |m.frames| && i0 < 1024 && t < 0x10_0000
    && m' == AllocMem(m).(frames := SetWord(AllocMem(m).frames, pd, i0, Entry(t, true, true)))
  }

  /** The state after VMM::free(f): one reference fewer, and f pushed on the free list at zero. */
  function FreeMem(m: Mem, f: nat): Mem
    requires f < |m.frames| == |m.refs| && m.refs[f] > 0 && f < 0x10_0000
  {
    var m1 := m.(refs := m.refs[f := m.refs[f] - 1]);
    if m.refs[f] == 1
    then m1.(frames := SetWord(m.frames, f, 0, m.firstFree), firstFree := 4096 * f)
    else m1
  }

  // ---- who refers to a frame

  /**
    A counted reference to a frame: an address space's directory, a page table
    of directory d, a page mapped by d, or a reference a kernel routine holds
    in a local variable between two statements.
  */
  datatype Use =
    | Dir(d: nat)
    | Table(d: nat, i0: nat)
    | Leaf(d: nat, p: VPage)
    | Held(k: nat)

  /** The references that exist, the free list, the live address spaces and the pool's first frame. */
  datatype Shadow = Shadow(edges: map<Use, nat>, free: seq<nat>, live: set<nat>, start: nat)

  ghost function Holders(e: map<Use, nat>, f: nat): set<Use> {
    set u | u in e && e[u] == f
  }

  ghost predicate Sole(e: map<Use, nat>, u: Use)
    requires u in e
  {
    forall v :: v in e && e[v] == e[u] ==> v == u
  }

  predicate Sharable(u: Use) { u.Leaf? || u.Held? }

  // ---- reading the tables

  function Pde(frames: seq<Page>, d: nat, i0: nat): Word {
    if d < |frames| && i0 < 1024 then frames[d][i0] else 0
  }

  function Pte(frames: seq<Page>, e: map<Use, nat>, d: nat, p: VPage): Word {
    if Table(d, p.i0) in e && e[Table(d, p.i0)] < |frames| && p.i1 < 1024
    then frames[e[Table(d, p.i0)]][p.i1] else 0
  }

  /** What address space d reads at virtual page p; a page never touched reads as zeros. */
  function View(frames: seq<Page>, e: map<Use, nat>, d: nat, p: VPage): Page {
    if Leaf(d, p) in e && e[Leaf(d, p)] < |frames| then frames[e[Leaf(d, p)]] else ZeroPage()
  }

  // ---- the invariant

  predicate Shape(m: Mem, g: Shadow) {
    && |m.frames| == |m.refs| == m.limit <= NUM_FRAMES
    && 0 < g.start <= m.avail <= m.limit
    && m.shared < m.limit
  }

  /** The address stored as the i-th link of the free list. */
  function Link(free: seq<nat>, i: nat): nat {
    if i < |free| then 4096 * free[i] else 0
  }

  /** The list threaded through word 0 of the free frames is `free`. */
  ghost predicate FreeOk(frames: seq<Page>, firstFree: Word, avail: nat, free: seq<nat>, start: nat) {
    && (forall i :: 0 <= i < |free| ==> start <= free[i] < avail)
    && (forall i, j :: 0 <= i < j < |free| ==> free[i] != free[j])
    && firstFree == Link(free, 0)
    && (forall i :: 0 <= i < |free| && free[i] < |frames| ==>
          frames[free[i]][0] == Link(free, i + 1))
  }

  /** Every count equals the number of references that exist. */
  ghost predicate CountsOk(refs: seq<nat>, e: map<Use, nat>) {
    forall f :: 0 <= f < |refs| ==> refs[f] == |Holders(e, f)|
  }

  /** Frames handed out so far are partitioned into free ones and referenced ones. */
  ghost predicate RangeOk(refs: seq<nat>, avail: nat, e: map<Use, nat>, free: seq<nat>, start: nat) {
    && (forall u :: u in e ==> start <= e[u] < avail)
    && (forall f :: start <= f < avail && f < |refs| ==> (f in free <==> refs[f] == 0))
  }

  /** Only pages are ever shared: a directory or table has exactly one reference. */
  ghost predicate UniqueOk(e: map<Use, nat>) {
    forall u, v :: u in e && v in e && e[u] == e[v] && u != v ==> Sharable(u) && Sharable(v)
  }

  ghost predicate TreeOk(e: map<Use, nat>, live: set<nat>) {
    && (forall d :: d in live ==> Dir(d) in e)
    && (forall d :: Dir(d) in e ==> e[Dir(d)] == d)
    && (forall d, i0 :: Table(d, i0) in e ==> Dir(d) in e)
    && (forall d, i0 :: Table(d, i0) in e && d in live ==> UserDir(i0))
    && (forall d, p :: Leaf(d, p) in e ==> Table(d, p.i0) in e && UserPage(p))
  }

  predicate EntryOk(w: Word, e: map<Use, nat>, u: Use) {
    && (Present(w) <==> u in e)
    && (u in e ==> FrameOf(w) == e[u] && ForUser(w))
  }

  /** A directory word also lets user code write through it: only the page's own W bit protects it. */
  predicate DirEntryOk(w: Word, e: map<Use, nat>, u: Use) {
    EntryOk(w, e, u) && (u in e ==> Writable(w))
  }

  /** The words in a live address space's directory and tables are exactly its references. */
  ghost predicate MapsOk(frames: seq<Page>, e: map<Use, nat>, live: set<nat>) {
    && (forall d, i0 :: d in live && UserDir(i0) ==>
          DirEntryOk(Pde(frames, d, i0), e, Table(d, i0)))
    && (forall d, p :: d in live && UserPage(p) ==>
          EntryOk(Pte(frames, e, d, p), e, Leaf(d, p)))
  }

  /** A page that is writable anywhere has no second reference. */
  ghost predicate CowOk(frames: seq<Page>, e: map<Use, nat>, live: set<nat>) {
    forall d, p :: d in live && Leaf(d, p) in e && Writable(Pte(frames, e, d, p)) ==>
      Sole(e, Leaf(d, p))
  }

  /** The kernel part of every directory is the shared one, whose user part is empty. */
  ghost predicate KernelOk(frames: seq<Page>, shared: nat, e: map<Use, nat>, live: set<nat>) {
    && Dir(shared) in e && shared !in live
    && (forall i0 :: UserDir(i0) ==> Pde(frames, shared, i0) == 0)
    && (forall i0 :: i0 < 1024 && !UserDir(i0) ==>
          DirEntryOk(Pde(frames, shared, i0), e, Table(shared, i0)))
    && (forall i0 :: Table(shared, i0) in e ==> i0 < 1024 && !UserDir(i0))
    && (forall d, i0 :: d in live && i0 < 1024 && !UserDir(i0) ==>
          Pde(frames, d, i0) == Pde(frames, shared, i0))
  }

  ghost predicate Inv(m: Mem, g: Shadow) {
    && Shape(m, g)
    && FreeOk(m.frames, m.firstFree, m.avail, g.free, g.start)
    && CountsOk(m.refs, g.edges)
    && RangeOk(m.refs, m.avail, g.edges, g.free, g.start)
    && UniqueOk(g.edges)
    && TreeOk(g.edges, g.live)
    && MapsOk(m.frames, g.edges, g.live)
    && CowOk(m.frames, g.edges, g.live)
    && KernelOk(m.frames, m.shared, g.edges, g.live)
  }

  /** No kernel routine is between two statements, and every directory belongs to a live space. */
  ghost predicate Quiet(g: Shadow, shared: nat) {
    forall u :: u in g.edges ==> !u.Held? && (u.Dir? ==> u.d in g.live || u.d == shared)
  }
}
