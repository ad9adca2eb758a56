/**
  The machine that copy-on-write has to look like: every address space owns a full copy of its
  user pages, and fork copies all of them at once.
*/
module EagerCopy {
  import opened Paging

  type AddressMap = map<VPage, Page>
  type Spaces = map<nat, AddressMap>

  ghost function Blank(): AddressMap {
    map p | p in UserPages() :: ZeroPage()
  }

  function Put(a: AddressMap, p: VPage, page: Page): AddressMap { a[p := page] }

  /** What user code can observe, and `Internal` for everything the kernel does on its own. */
  datatype Event =
    | Internal
    | Created(d: nat)
    | Forked(parent: nat, child: nat)
    | Loaded(d: nat, va: Word, x: Word)
    | Stored(d: nat, va: Word, x: Word)
    | Destroyed(d: nat)

  ghost predicate Happens(s: Spaces, ev: Event, s': Spaces) {
    match ev
    case Internal => s' == s
    case Created(d) => d !in s && s' == s[d := Blank()]
    case Forked(parent, child) => parent in s && child !in s && s' == s[child := s[parent]]
    case Loaded(d, va, x) =>
      && d in s && PageOf(va) in s[d]
      && x == s[d][PageOf(va)][WordOf(va)]
      && s' == s
    case Stored(d, va, x) =>
      && d in s && PageOf(va) in s[d]
      && s' == s[d := Put(s[d], PageOf(va), s[d][PageOf(va)][WordOf(va) := x])]
    case Destroyed(d) => d in s && s' == s - {d}
  }

  /** s' can follow from s by the events of the trace, in order. */
  ghost predicate Runs(s: Spaces, trace: seq<Event>, s': Spaces)
    decreases |trace|
  {
    if trace == [] then s' == s
    else
      var front, last := trace[..|trace| - 1], trace[|trace| - 1];
      exists mid :: Runs(s, front, mid) && Happens(mid, last, s')
  }

  lemma RunsSnoc(s: Spaces, trace: seq<Event>, mid: Spaces, ev: Event, s': Spaces)
    requires Runs(s, trace, mid) && Happens(mid, ev, s')
    ensures Runs(s, trace + [ev], s')
  {
    assert (trace + [ev])[..|trace + [ev]| - 1] == trace;
  }

  /** The spaces whose pages an event may change. */
  predicate Touches(ev: Event, d: nat) {
    match ev
    case Created(d') => d' == d
    case Forked(_, child) => child == d
    case Stored(d', _, _) => d' == d
    case Destroyed(d') => d' == d
    case _ => false
  }

  /** No run of other processes, however long, changes what a space holds. */
  lemma {:induction false} Isolation(s: Spaces, trace: seq<Event>, s': Spaces, d: nat)
    requires Runs(s, trace, s') && d in s
    requires forall i :: 0 <= i < |trace| ==> !Touches(trace[i], d)
    ensures d in s' && s'[d] == s[d]
  {
    if trace != [] {
      var front, last := trace[..|trace| - 1], trace[|trace| - 1];
      var mid :| Runs(s, front, mid) && Happens(mid, last, s');
      Isolation(s, front, mid, d);
    }
  }
}
