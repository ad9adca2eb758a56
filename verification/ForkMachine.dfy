/**
  Processes over the copy-on-write frame pool.  A fork copies the parent page by page while
  other processes run; the parent waits for it (kernel/sys.cc, `sync.get()`) and the child has
  not started.  Whatever the schedule, user code sees the eager machine of module EagerCopy.
*/
module ForkMachine {
  import opened Paging
  import opened CopyOnWriteVmm
  import opened EagerCopy
  import opened EagerFork

  /** The page that the nested loops of fork reach after n others. */
  function PageAt(n: nat): (p: VPage)
    requires n < PAGES
    ensures UserPage(p) && Index(p) == n
  {
    VPage(USER_LO + n / 1024, n % 1024)
  }

  function Index(p: VPage): int { (p.i0 - USER_LO) * 1024 + p.i1 }

  lemma IndexPage(p: VPage, q: VPage)
    requires UserPage(p) && UserPage(q) && Index(p) == Index(q)
    ensures p == q
  {
  }

  /** What process d may count on: a child being built already owns its parent's pages. */
  ghost function Owns(frames: seq<Page>, e: map<Use, nat>, forks: map<nat, Fork>, d: nat, p: VPage): Page {
    if d in forks && Index(p) >= forks[d].next
    then View(frames, e, forks[d].parent, p) else View(frames, e, d, p)
  }

  ghost function OwnedPages(frames: seq<Page>, e: map<Use, nat>, forks: map<nat, Fork>, d: nat): AddressMap {
    map p | p in UserPages() :: Owns(frames, e, forks, d, p)
  }

  ghost function Abstract(frames: seq<Page>, g: Shadow, forks: map<nat, Fork>): Spaces {
    map d | d in g.live :: OwnedPages(frames, g.edges, forks, d)
  }

  lemma SameOwned(frames: seq<Page>, e: map<Use, nat>, forks: map<nat, Fork>, frames': seq<Page>, e': map<Use, nat>,
                  forks': map<nat, Fork>, d: nat)
    requires forall p :: UserPage(p) ==> Owns(frames', e', forks', d, p) == Owns(frames, e, forks, d, p)
    ensures OwnedPages(frames', e', forks', d) == OwnedPages(frames, e, forks, d)
  {
    hide Owns, UserPages;
  }

  ghost predicate ForksOk(g: Shadow, forks: map<nat, Fork>) {
    && Apart(g.live, forks)
    && (forall c, p :: c in forks && Leaf(c, p) in g.edges ==> Index(p) < forks[c].next)
  }

  // ---- each kind of step, on the abstraction

  ghost predicate SameViewsBut(frames: seq<Page>, e: map<Use, nat>, frames': seq<Page>, e': map<Use, nat>, x: nat,
                               q: VPage) {
    forall d, p :: !(d == x && p == q) ==> View(frames', e', d, p) == View(frames, e, d, p)
  }

  lemma AbstractSame(frames: seq<Page>, g: Shadow, frames': seq<Page>, g': Shadow, forks: map<nat, Fork>)
    requires g'.live == g.live
    requires forall d, p :: View(frames', g'.edges, d, p) == View(frames, g.edges, d, p)
    ensures Abstract(frames', g', forks) == Abstract(frames, g, forks)
  {
    forall d | d in g.live
      ensures OwnedPages(frames', g'.edges, forks, d) == OwnedPages(frames, g.edges, forks, d) {
      SameOwned(frames, g.edges, forks, frames', g'.edges, forks, d);
    }
  }

  lemma AbstractCreate(frames: seq<Page>, g: Shadow, frames': seq<Page>, g': Shadow, forks: map<nat, Fork>, d: nat)
    requires ForksOk(g, forks) && d !in g.live && g'.live == g.live + {d}
    requires forall d, p :: View(frames', g'.edges, d, p) == View(frames, g.edges, d, p)
    requires forall p :: Leaf(d, p) !in g'.edges
    ensures Abstract(frames', g', forks) == Abstract(frames, g, forks)[d := Blank()]
  {
    forall d' | d' in g.live
      ensures OwnedPages(frames', g'.edges, forks, d') == OwnedPages(frames, g.edges, forks, d') {
      SameOwned(frames, g.edges, forks, frames', g'.edges, forks, d');
    }
    BlankPages(frames', g'.edges, forks, d);
  }

  lemma BlankPages(frames: seq<Page>, e: map<Use, nat>, forks: map<nat, Fork>, d: nat)
    requires d !in forks && forall p :: Leaf(d, p) !in e
    ensures OwnedPages(frames, e, forks, d) == Blank()
  {
    hide UserPages;
  }

  lemma AbstractStart(frames: seq<Page>, g: Shadow, frames': seq<Page>, g': Shadow, forks: map<nat, Fork>,
                      parent: nat, child: nat)
    requires ForksOk(g, forks) && child !in g.live && g'.live == g.live + {child}
    requires parent in g.live && parent !in forks
    requires forall d, p :: View(frames', g'.edges, d, p) == View(frames, g.edges, d, p)
    ensures var s := Abstract(frames, g, forks);
      Abstract(frames', g', forks[child := Fork(parent, 0)]) == s[child := s[parent]]
  {
    hide OwnedPages, View, Owns;
    var forks' := forks[child := Fork(parent, 0)];
    forall d | d in g.live
      ensures OwnedPages(frames', g'.edges, forks', d) == OwnedPages(frames, g.edges, forks, d) {
      StartOwned(frames, g.edges, frames', g'.edges, forks, parent, child, d);
    }
    StartChild(frames, g.edges, frames', g'.edges, forks, parent, child);
  }

  lemma StartOwned(frames: seq<Page>, e: map<Use, nat>, frames': seq<Page>, e': map<Use, nat>, forks: map<nat, Fork>,
                   parent: nat, child: nat, d: nat)
    requires d != child && forall d, p :: View(frames', e', d, p) == View(frames, e, d, p)
    ensures OwnedPages(frames', e', forks[child := Fork(parent, 0)], d) == OwnedPages(frames, e, forks, d)
  {
    hide View, OwnedPages;
    SameOwned(frames, e, forks, frames', e', forks[child := Fork(parent, 0)], d);
  }

  lemma StartChild(frames: seq<Page>, e: map<Use, nat>, frames': seq<Page>, e': map<Use, nat>, forks: map<nat, Fork>,
                   parent: nat, child: nat)
    requires parent !in forks && forall d, p :: View(frames', e', d, p) == View(frames, e, d, p)
    ensures OwnedPages(frames', e', forks[child := Fork(parent, 0)], child) == OwnedPages(frames, e, forks, parent)
  {
    hide View;
  }

  lemma AbstractStep(frames: seq<Page>, g: Shadow, frames': seq<Page>, g': Shadow, forks: map<nat, Fork>, child: nat)
    requires ForksOk(g, forks) && g'.live == g.live && child in forks && forks[child].next < PAGES
    requires var q := PageAt(forks[child].next);
      && SameViewsBut(frames, g.edges, frames', g'.edges, child, q)
      && View(frames', g'.edges, child, q) == View(frames, g.edges, forks[child].parent, q)
    ensures Abstract(frames', g', forks[child := forks[child].(next := forks[child].next + 1)])
      == Abstract(frames, g, forks)
  {
    var forks' := forks[child := forks[child].(next := forks[child].next + 1)];
    forall d | d in g.live
      ensures OwnedPages(frames', g'.edges, forks', d) == OwnedPages(frames, g.edges, forks, d) {
      StepOwned(frames, g, frames', g', forks, child, d);
    }
  }

  lemma StepOwned(frames: seq<Page>, g: Shadow, frames': seq<Page>, g': Shadow, forks: map<nat, Fork>, child: nat,
                  d: nat)
    requires ForksOk(g, forks) && child in forks && forks[child].next < PAGES && d in g.live
    requires var q := PageAt(forks[child].next);
      && SameViewsBut(frames, g.edges, frames', g'.edges, child, q)
      && View(frames', g'.edges, child, q) == View(frames, g.edges, forks[child].parent, q)
    ensures OwnedPages(frames', g'.edges, forks[child := forks[child].(next := forks[child].next + 1)], d)
      == OwnedPages(frames, g.edges, forks, d)
  {
    hide UserPages, View;
    var n := forks[child].next;
    var forks' := forks[child := forks[child].(next := n + 1)];
    forall p | UserPage(p)
      ensures Owns(frames', g'.edges, forks', d, p) == Owns(frames, g.edges, forks, d, p)
    {
      if d == child && Index(p) == n {
        IndexPage(p, PageAt(n));
      }
    }
    SameOwned(frames, g.edges, forks, frames', g'.edges, forks', d);
  }

  lemma AbstractFinish(frames: seq<Page>, g: Shadow, forks: map<nat, Fork>, child: nat)
    requires child in forks && forks[child].next == PAGES
    ensures Abstract(frames, g, forks - {child}) == Abstract(frames, g, forks)
  {
    forall d | d in g.live
      ensures OwnedPages(frames, g.edges, forks - {child}, d) == OwnedPages(frames, g.edges, forks, d) {
      SameOwned(frames, g.edges, forks, frames, g.edges, forks - {child}, d);
    }
  }

  lemma AbstractStore(frames: seq<Page>, g: Shadow, frames': seq<Page>, g': Shadow, forks: map<nat, Fork>, d: nat,
                      q: VPage, page: Page)
    requires ForksOk(g, forks) && g'.live == g.live && d in g.live && UserPage(q)
    requires page == View(frames', g'.edges, d, q)
    requires d !in forks && forall c :: c in forks ==> forks[c].parent != d
    requires SameViewsBut(frames, g.edges, frames', g'.edges, d, q)
    ensures var s := Abstract(frames, g, forks);
      && d in s && q in s[d] && s[d][q] == View(frames, g.edges, d, q)
      && Abstract(frames', g', forks) == s[d := Put(s[d], q, page)]
  {
    hide OwnedPages, View, UserPages, Put, SameViewsBut;
    StoreOwned(frames, g.edges, frames', g'.edges, forks, d, q, page);
    forall d' | d' in g.live && d' != d
      ensures OwnedPages(frames', g'.edges, forks, d') == OwnedPages(frames, g.edges, forks, d') {
      OtherOwned(frames, g.edges, frames', g'.edges, forks, d, q, d');
    }
  }

  lemma StoreHappens(frames: seq<Page>, g: Shadow, frames': seq<Page>, g': Shadow, forks: map<nat, Fork>, d: nat,
                     va: Word, x: Word)
    requires ForksOk(g, forks) && g'.live == g.live && d in g.live && UserPage(PageOf(va))
    requires d !in forks && forall c :: c in forks ==> forks[c].parent != d
    requires SameViewsBut(frames, g.edges, frames', g'.edges, d, PageOf(va))
    requires View(frames', g'.edges, d, PageOf(va)) == View(frames, g.edges, d, PageOf(va))[WordOf(va) := x]
    ensures Happens(Abstract(frames, g, forks), Stored(d, va, x), Abstract(frames', g', forks))
  {
    hide ForksOk, SameViewsBut, View, Abstract, Put, UserPage, PageOf, WordOf;
    AbstractStore(frames, g, frames', g', forks, d, PageOf(va), View(frames', g'.edges, d, PageOf(va)));
  }

  lemma LoadHappens(frames: seq<Page>, g: Shadow, frames': seq<Page>, g': Shadow, forks: map<nat, Fork>, d: nat,
                    va: Word, x: Word)
    requires ForksOk(g, forks) && g'.live == g.live && d in g.live && UserPage(PageOf(va))
    requires d !in forks && forall c :: c in forks ==> forks[c].parent != d
    requires forall d', p :: View(frames', g'.edges, d', p) == View(frames, g.edges, d', p)
    requires x == View(frames, g.edges, d, PageOf(va))[WordOf(va)]
    ensures Happens(Abstract(frames, g, forks), Loaded(d, va, x), Abstract(frames', g', forks))
  {
    hide ForksOk, View, Abstract, Put, UserPage, PageOf, WordOf;
    AbstractSame(frames, g, frames', g', forks);
    AbstractStore(frames, g, frames, g, forks, d, PageOf(va), View(frames, g.edges, d, PageOf(va)));
  }

  lemma OtherOwned(frames: seq<Page>, e: map<Use, nat>, frames': seq<Page>, e': map<Use, nat>, forks: map<nat, Fork>,
                   d: nat, q: VPage, d': nat)
    requires d' != d && forall c :: c in forks ==> forks[c].parent != d
    requires SameViewsBut(frames, e, frames', e', d, q)
    ensures OwnedPages(frames', e', forks, d') == OwnedPages(frames, e, forks, d')
  {
    hide View, UserPages;
    SameOwned(frames, e, forks, frames', e', forks, d');
  }

  lemma StoreOwned(frames: seq<Page>, e: map<Use, nat>, frames': seq<Page>, e': map<Use, nat>, forks: map<nat, Fork>,
                   d: nat, q: VPage, page: Page)
    requires UserPage(q) && page == View(frames', e', d, q) && d !in forks
    requires SameViewsBut(frames, e, frames', e', d, q)
    ensures var s := OwnedPages(frames, e, forks, d);
      q in s && s[q] == View(frames, e, d, q) && OwnedPages(frames', e', forks, d) == Put(s, q, page)
  {
    hide UserPages;
  }

  lemma AbstractDelete(frames: seq<Page>, g: Shadow, frames': seq<Page>, g': Shadow, forks: map<nat, Fork>, d: nat)
    requires ForksOk(g, forks) && g'.live == g.live - {d}
    requires d !in forks && forall c :: c in forks ==> forks[c].parent != d
    requires forall d', p :: d' != d ==> View(frames', g'.edges, d', p) == View(frames, g.edges, d', p)
    ensures Abstract(frames', g', forks) == Abstract(frames, g, forks) - {d}
  {
    forall d' | d' in g.live && d' != d
      ensures OwnedPages(frames', g'.edges, forks, d') == OwnedPages(frames, g.edges, forks, d') {
      SameOwned(frames, g.edges, forks, frames', g'.edges, forks, d');
    }
  }

  lemma AbstractHas(frames: seq<Page>, g: Shadow, forks: map<nat, Fork>)
    ensures Abstract(frames, g, forks).Keys == g.live
  {
    hide OwnedPages;
  }

  // ---- the machine

  class Machine {
    const vmm: Vmm
    var forks: map<nat, Fork>
    var spaces: set<nat>

    ghost predicate Valid()
      reads this, vmm, vmm.frames, vmm.refs
    {
      vmm.Valid() && ForksOk(vmm.g, forks) && spaces == vmm.g.live
    }

    ghost function Owned(): Spaces
      reads this, vmm, vmm.frames
    {
      Abstract(vmm.frames[..], vmm.g, forks)
    }

    ghost function Now(): Config
      reads this, vmm, vmm.frames
    {
      Config(Owned(), forks)
    }

    /** The frames that an operation takes now: for a directory, a page table, or a page, never for a page shared. */
    ghost function Takes(op: Op): int
      reads this, vmm, vmm.frames
    {
      match op
      case Create => 1
      case StartFork(_) => 1
      case ForkStep(c) =>
        if c in forks && forks[c].next < PAGES then vmm.ForkFrames(forks[c].parent, c, PageAt(forks[c].next)) else 0
      case Load(d, va) => if vmm.Mapped(d, PageOf(va)) then 0 else vmm.FaultFrames(d, PageOf(va))
      case Store(d, va, _) => if vmm.MappedWritable(d, PageOf(va)) then 0 else vmm.FaultFrames(d, PageOf(va))
      case Delete(_) => 0
    }

    predicate Runnable(d: nat)
      reads this
    {
      CanRun(spaces, forks, d)
    }

    constructor (vmm: Vmm)
      requires vmm.Valid() && vmm.g.live == {}
      ensures Valid() && this.vmm == vmm && Owned() == map[]
    {
      this.vmm, forks, spaces := vmm, map[], {};
    }

    /** A new address space for a new process. */
    method Create() returns (ok: bool, ghost ev: Event)
      requires Valid()
      modifies this, vmm, vmm.frames, vmm.refs
      ensures ok ==> Valid() && Happens(old(Owned()), ev, Owned()) && Answers(Op.Create, ev) && forks == old(forks)
      ensures ok <==> old(vmm.Spare() >= Takes(Op.Create))
      ensures !ok ==> vmm.Exhausted()
    {
      hide Inv, FreeOk, CountsOk, RangeOk, UniqueOk, TreeOk, MapsOk, CowOk, KernelOk;
      vmm.SpareMeans();
      ghost var frames0, g0 := vmm.frames[..], vmm.g;
      var d := vmm.NewSpace();
      if d.None? {
        return false, Internal;
      }
      spaces := spaces + {d.value};
      NewForks(g0, d.value, forks);
      AbstractCreate(frames0, g0, vmm.frames[..], vmm.g, forks, d.value);
      return true, Created(d.value);
    }

    lemma NewForks(g0: Shadow, d: nat, forks: map<nat, Fork>)
      requires ForksOk(g0, forks) && vmm.g.live == g0.live + {d} && d !in g0.live
      requires forall u :: u != Dir(d) ==> SameUse(g0.edges, vmm.g.edges, u)
      ensures ForksOk(vmm.g, forks)
    {
      forall c, p | c in forks && Leaf(c, p) in vmm.g.edges ensures Index(p) < forks[c].next {
        assert SameUse(g0.edges, vmm.g.edges, Leaf(c, p));
      }
    }

    /** sys_call::fork up to the start of its page loop: from here the parent waits. */
    method StartFork(parent: nat) returns (ok: bool, ghost ev: Event)
      requires Valid() && Runnable(parent)
      modifies this, vmm, vmm.frames, vmm.refs
      ensures ok ==> Valid() && Happens(old(Owned()), ev, Owned()) && Answers(Op.StartFork(parent), ev)
      ensures ok ==> ev.child !in old(spaces) && forks == old(forks)[ev.child := Fork(parent, 0)]
      ensures ok ==> !Runnable(parent) && !Runnable(ev.child)
      ensures ok <==> old(vmm.Spare() >= Takes(Op.StartFork(parent)))
      ensures !ok ==> vmm.Exhausted()
    {
      hide Inv, Quiet, ForksOk, Abstract, View;
      vmm.SpareMeans();
      ghost var frames0, g0, forks0 := vmm.frames[..], vmm.g, forks;
      var child := vmm.NewSpace();
      if child.None? {
        return false, Internal;
      }
      AbstractStart(frames0, g0, vmm.frames[..], vmm.g, forks, parent, child.value);
      AbstractHas(frames0, g0, forks);
      spaces := spaces + {child.value};
      forks := forks[child.value := Fork(parent, 0)];
      StartForks(g0, forks0, parent, child.value);
      assert child.value in forks && forks[child.value].parent == parent;
      return true, Forked(parent, child.value);
    }

    lemma StartForks(g0: Shadow, forks0: map<nat, Fork>, parent: nat, child: nat)
      requires ForksOk(g0, forks0) && CanRun(g0.live, forks0, parent)
      requires child !in g0.live && vmm.g.live == g0.live + {child} && forks == forks0[child := Fork(parent, 0)]
      requires forall p :: Leaf(child, p) !in vmm.g.edges
      requires forall u :: u != Dir(child) ==> SameUse(g0.edges, vmm.g.edges, u)
      ensures ForksOk(vmm.g, forks)
    {
      NewForks(g0, child, forks0);
    }

    /** The page loop takes one step, or ends and lets parent and child go. */
    method ForkStep(child: nat) returns (ok: bool)
      requires Valid() && child in forks
      modifies this, vmm, vmm.frames, vmm.refs
      ensures ok ==> Valid() && Owned() == old(Owned()) && forks == Advanced(old(forks), child)
      ensures ok <==> old(vmm.Spare() >= Takes(Op.ForkStep(child)))
      ensures !ok ==> vmm.Exhausted()
    {
      hide Inv, Quiet, ForksOk, Abstract, View;
      vmm.SpareMeans();
      ghost var frames0, g0, forks0 := vmm.frames[..], vmm.g, forks;
      ForkFacts(child);
      var f := forks[child];
      if f.next == PAGES {
        AbstractFinish(frames0, g0, forks, child);
        forks := forks - {child};
        FinishForks(forks0, child);
        return true;
      }
      ok := vmm.ForkPage(f.parent, child, PageAt(f.next));
      if ok {
        AbstractStep(frames0, g0, vmm.frames[..], vmm.g, forks, child);
        forks := forks[child := f.(next := f.next + 1)];
        StepForks(g0, forks0, child);
      }
    }

    lemma ForkFacts(child: nat)
      requires ForksOk(vmm.g, forks) && child in forks
      ensures var f := forks[child];
        && child in vmm.g.live && f.parent in vmm.g.live && f.parent != child && f.next <= PAGES
        && (f.next < PAGES ==> !vmm.Mapped(child, PageAt(f.next)))
    {
    }

    lemma FinishForks(forks0: map<nat, Fork>, child: nat)
      requires ForksOk(vmm.g, forks0) && forks == forks0 - {child}
      ensures ForksOk(vmm.g, forks)
    {
    }

    lemma StepForks(g0: Shadow, forks0: map<nat, Fork>, child: nat)
      requires ForksOk(g0, forks0) && vmm.g.live == g0.live && child in forks0 && forks0[child].next < PAGES
      requires var p := PageAt(forks0[child].next);
        forall u :: u != Leaf(child, p) && u != Table(child, p.i0) ==> SameUse(g0.edges, vmm.g.edges, u)
      requires forks == forks0[child := forks0[child].(next := forks0[child].next + 1)]
      ensures ForksOk(vmm.g, forks)
    {
      forall c, p | c in forks && Leaf(c, p) in vmm.g.edges ensures Index(p) < forks[c].next {
        if !(c == child && p == PageAt(forks0[child].next)) {
          assert SameUse(g0.edges, vmm.g.edges, Leaf(c, p));
        }
      }
    }

    method Load(d: nat, va: Word) returns (ok: bool, ghost ev: Event)
      requires Valid() && Runnable(d) && UserPage(PageOf(va))
      modifies this, vmm, vmm.frames, vmm.refs
      ensures ok ==> Valid() && Happens(old(Owned()), ev, Owned()) && Answers(Op.Load(d, va), ev) && forks == old(forks)
      ensures ok <==> old(vmm.Spare() >= Takes(Op.Load(d, va)))
      ensures !ok ==> vmm.Exhausted()
    {
      hide Inv, Quiet, Abstract, View, Happens, PageOf, UserPage, WordOf;
      ghost var frames0, g0 := vmm.frames[..], vmm.g;
      var x := vmm.UserLoad(d, va);
      if x.None? {
        return false, Internal;
      }
      LoadHappens(frames0, g0, vmm.frames[..], vmm.g, forks, d, va, x.value);
      KeepForks(g0, d, PageOf(va));
      return true, Loaded(d, va, x.value);
    }

    method Store(d: nat, va: Word, x: Word) returns (ok: bool, ghost ev: Event)
      requires Valid() && Runnable(d) && UserPage(PageOf(va))
      modifies this, vmm, vmm.frames, vmm.refs
      ensures ok ==>
        Valid() && Happens(old(Owned()), ev, Owned()) && Answers(Op.Store(d, va, x), ev) && forks == old(forks)
      ensures ok <==> old(vmm.Spare() >= Takes(Op.Store(d, va, x)))
      ensures !ok ==> vmm.Exhausted()
    {
      hide Inv, Quiet, Abstract, View, Happens, PageOf, UserPage, WordOf;
      ghost var frames0, g0 := vmm.frames[..], vmm.g;
      ok := vmm.UserStore(d, va, x);
      if !ok {
        return false, Internal;
      }
      StoreHappens(frames0, g0, vmm.frames[..], vmm.g, forks, d, va, x);
      KeepForks(g0, d, PageOf(va));
      return true, Stored(d, va, x);
    }

    lemma KeepForks(g0: Shadow, d: nat, q: VPage)
      requires ForksOk(g0, forks) && vmm.g.live == g0.live && d !in forks
      requires forall d', p :: !(d' == d && p == q) ==> (Leaf(d', p) in vmm.g.edges <==> Leaf(d', p) in g0.edges)
      ensures ForksOk(vmm.g, forks)
    {
      forall c, p | c in forks && Leaf(c, p) in vmm.g.edges ensures Index(p) < forks[c].next {
        assert Leaf(c, p) in g0.edges;
      }
    }

    /** `delete addressSpace`, as execl does. */
    method Delete(d: nat) returns (ghost ev: Event)
      requires Valid() && Runnable(d)
      modifies this, vmm, vmm.frames, vmm.refs
      ensures Valid() && Happens(old(Owned()), ev, Owned()) && ev == Destroyed(d) && forks == old(forks)
    {
      hide FreeOk, CountsOk, RangeOk, UniqueOk, TreeOk, MapsOk, CowOk, KernelOk;
      ghost var frames0, g0 := vmm.frames[..], vmm.g;
      vmm.Destroy(d);
      spaces := spaces - {d};
      AbstractDelete(frames0, g0, vmm.frames[..], vmm.g, forks, d);
      return Destroyed(d);
    }

    /** The next operation of a schedule; one that its process cannot run now is passed over. */
    method Perform(op: Op) returns (ok: bool, ghost ev: Event)
      requires Valid()
      modifies this, vmm, vmm.frames, vmm.refs
      ensures ok ==> Valid() && Steps(old(Now()), op, ev, Now())
      ensures ok <==> !Enabled(old(Now()), op) || old(vmm.Spare() >= Takes(op))
      ensures !ok ==> vmm.Exhausted()
    {
      hide Inv, Quiet, ForksOk, Abstract, Happens, PageOf, UserPage, WordOf;
      vmm.SpareMeans();
      AbstractHas(vmm.frames[..], vmm.g, forks);
      if !Allows(spaces, forks, op) {
        return true, Internal;
      }
      ok, ev := true, Internal;
      match op
      case Create => ok, ev := Create();
      case StartFork(parent) => ok, ev := StartFork(parent);
      case ForkStep(child) =>
        ok := ForkStep(child);
        if ok { NothingHappens(Owned()); }
      case Load(d, va) => ok, ev := Load(d, va);
      case Store(d, va, x) => ok, ev := Store(d, va, x);
      case Delete(d) => ev := Delete(d);
    }

    /**
      Any schedule, with any number of forks half done at any time: what user code observes is
      what the eager machine answers to the same schedule, operation by operation, and `last` is
      where that machine stands.  The run stops early only at an operation that finds no frame.
    */
    method Run(schedule: seq<Op>) returns (done: nat, ghost trace: seq<Event>, ghost last: Config)
      requires Valid()
      modifies this, vmm, vmm.frames, vmm.refs
      ensures done <= |schedule| && |trace| == done
      ensures Follows(old(Now()), schedule[..done], trace, last) && Runs(old(Owned()), trace, last.owned)
      ensures done == |schedule| ==> Valid() && Now() == last
      ensures done < |schedule| ==> vmm.Exhausted() && Enabled(last, schedule[done])
    {
      hide Valid, Owned, Steps, Enabled;
      done, trace, last := 0, [], Now();
      ghost var first := Now();
      while done < |schedule|
        invariant Valid() && done <= |schedule| && |trace| == done && last == Now()
        invariant Follows(first, schedule[..done], trace, last)
      {
        var ok; ghost var ev;
        ok, ev := Perform(schedule[done]);
        if !ok {
          break;
        }
        FollowsSnoc(first, schedule[..done], trace, last, schedule[done], ev, Now());
        assert schedule[..done] + [schedule[done]] == schedule[..done + 1];
        done, trace, last := done + 1, trace + [ev], Now();
      }
      FollowsRuns(first, schedule[..done], trace, last);
      assert first.owned == old(Owned());
    }
  }
}
