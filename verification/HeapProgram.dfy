/**
  What the allocator is for: over any run of malloc, free, loads and stores, the program sees a
  map from pointers to private blocks of words.
*/
module HeapProgram {
  import opened HeapModel
  import H = Heap
  import opened Options

  /** The payload words of every block that the program owns, by the index of its header. */
  type Memory = map<int, seq<int>>

  ghost function PayloadOf(a: seq<int>, h: int): seq<int> {
    if 0 <= h && Size(a, h) >= 2 && h + Size(a, h) <= |a| then a[h + 1..h + Size(a, h) - 1] else []
  }

  ghost function MemoryOf(a: seq<int>, blocks: set<int>): Memory {
    map h | h in LiveOf(a, blocks) :: PayloadOf(a, h)
  }

  datatype Event =
    | Refused(bytes: nat)
    | Granted(bytes: nat, h: int)
    | Stored(h: int, k: nat, x: int)
    | Loaded(h: int, k: nat, x: int)
    | Freed(h: int)

  /** A block is new, large enough, and only what is stored through its own pointer changes it. */
  ghost predicate Happens(m: Memory, ev: Event, m': Memory) {
    match ev
    case Refused(_) => m' == m
    case Granted(bytes, h) => h !in m && h in m' && m' == m[h := m'[h]] && 4 * |m'[h]| >= bytes
    case Stored(h, k, x) => h in m && k < |m[h]| && m' == m[h := m[h][k := x]]
    case Loaded(h, k, x) => h in m && k < |m[h]| && x == m[h][k] && m' == m
    case Freed(h) => h in m && m' == m - {h}
  }

  ghost predicate Runs(m: Memory, trace: seq<Event>, m': Memory)
    decreases |trace|
  {
    if trace == [] then m' == m
    else
      var front, last := trace[..|trace| - 1], trace[|trace| - 1];
      exists mid :: Runs(m, front, mid) && Happens(mid, last, m')
  }

  lemma RunsSnoc(m: Memory, trace: seq<Event>, mid: Memory, ev: Event, m': Memory)
    requires Runs(m, trace, mid) && Happens(mid, ev, m')
    ensures Runs(m, trace + [ev], m')
  {
    assert (trace + [ev])[..|trace + [ev]| - 1] == trace;
  }

  /** No run touches a block but through its own pointer. */
  lemma {:induction false} Private(m: Memory, trace: seq<Event>, m': Memory, h: int)
    requires Runs(m, trace, m') && h in m
    requires forall i :: 0 <= i < |trace| ==>
      match trace[i] case Stored(g, _, _) => g != h case Freed(g) => g != h case _ => true
    ensures h in m' && m'[h] == m[h]
    decreases |trace|
  {
    if trace != [] {
      var front, last := trace[..|trace| - 1], trace[|trace| - 1];
      var mid :| Runs(m, front, mid) && Happens(mid, last, m');
      Private(m, front, mid, h);
    }
  }

  // ---- the routines, on memory

  lemma PayloadKept(a: seq<int>, a': seq<int>, blocks: set<int>, out: set<int>, h: int)
    requires Shape(a, blocks) && SameTaken(a, a', blocks, out) && |a'| == |a| && h in LiveOf(a, blocks) && h !in out
    ensures PayloadOf(a', h) == PayloadOf(a, h)
  {
    hide Chained, Apart;
    assert At(a', h) == At(a, h);
    assert PayloadOf(a', h) == PayloadOf(a, h) by {
      var n := Size(a, h);
      assert forall k :: h <= k < h + n ==> At(a', k) == At(a, k);
      SlicesEqual(a, a', h + 1, h + n - 1);
    }
  }

  lemma SlicesEqual(a: seq<int>, a': seq<int>, lo: nat, hi: nat)
    requires lo <= hi <= |a| == |a'| && forall k :: lo <= k < hi ==> At(a', k) == At(a, k)
    ensures a'[lo..hi] == a[lo..hi]
  {
    forall k | lo <= k < hi ensures a'[k] == a[k] {
      assert At(a', k) == At(a, k);
    }
  }

  lemma GrantHappens(a: seq<int>, blocks: set<int>, a': seq<int>, blocks': set<int>, h: int, bytes: nat)
    requires Shape(a, blocks) && Shape(a', blocks') && |a'| == |a| && IsAvail(a, h)
    requires LiveOf(a', blocks') == LiveOf(a, blocks) + {h} && SameTaken(a, a', blocks, {})
    requires Size(a', h) >= 2 && 4 * (Size(a', h) - 2) >= bytes
    ensures Happens(MemoryOf(a, blocks), Granted(bytes, h), MemoryOf(a', blocks'))
  {
    hide Chained, Apart, PayloadOf;
    forall g | g in LiveOf(a, blocks) ensures PayloadOf(a', g) == PayloadOf(a, g) {
      PayloadKept(a, a', blocks, {}, g);
    }
    assert h in LiveOf(a', blocks');
    PayloadSize(a', blocks', h);
  }

  lemma PayloadSize(a: seq<int>, blocks: set<int>, h: int)
    requires Shape(a, blocks) && h in LiveOf(a, blocks)
    ensures |PayloadOf(a, h)| == Size(a, h) - 2 && Size(a, h) >= 4
    ensures 0 <= h && h + Size(a, h) <= |a|
    ensures forall k :: 0 <= k < |PayloadOf(a, h)| ==> PayloadOf(a, h)[k] == At(a, h + 1 + k)
  {
    hide Chained, Apart;
  }

  lemma FreeHappens(a: seq<int>, blocks: set<int>, a': seq<int>, blocks': set<int>, h: int)
    requires Shape(a, blocks) && |a'| == |a| && h in LiveOf(a, blocks)
    requires LiveOf(a', blocks') == LiveOf(a, blocks) - {h} && SameTaken(a, a', blocks, {h})
    ensures Happens(MemoryOf(a, blocks), Freed(h), MemoryOf(a', blocks'))
  {
    hide Shape, PayloadOf, SameTaken, LiveOf;
    forall g | g in LiveOf(a, blocks) && g != h ensures PayloadOf(a', g) == PayloadOf(a, g) {
      PayloadKept(a, a', blocks, {h}, g);
    }
  }

  lemma StoreHappens(a: seq<int>, blocks: set<int>, a': seq<int>, h: int, k: nat, x: int)
    requires Shape(a, blocks) && h in LiveOf(a, blocks) && k < Size(a, h) - 2 && a' == Put(a, h + 1 + k, x)
    requires LiveOf(a', blocks) == LiveOf(a, blocks) && SameTaken(a, a', blocks, {h}) && Size(a', h) == Size(a, h)
    ensures Happens(MemoryOf(a, blocks), Stored(h, k, x), MemoryOf(a', blocks))
  {
    hide Chained, Apart, PayloadOf;
    forall g | g in LiveOf(a, blocks) && g != h ensures PayloadOf(a', g) == PayloadOf(a, g) {
      PayloadKept(a, a', blocks, {h}, g);
    }
    PayloadSize(a, blocks, h);
    PayloadSet(a, blocks, h, k, x);
  }

  lemma PayloadSet(a: seq<int>, blocks: set<int>, h: int, k: nat, x: int)
    requires Shape(a, blocks) && h in LiveOf(a, blocks) && k < Size(a, h) - 2
    requires Size(Put(a, h + 1 + k, x), h) == Size(a, h)
    ensures k < |PayloadOf(a, h)| && PayloadOf(Put(a, h + 1 + k, x), h) == PayloadOf(a, h)[k := x]
  {
    hide Chained, Apart;
    PayloadSize(a, blocks, h);
  }

  // ---- a program

  /** Pointers are payload indexes, as malloc returns them. */
  datatype Op = Malloc(bytes: nat) | Store(p: nat, k: nat, x: int) | Load(p: nat, k: nat) | Free(p: nat)

  predicate Answers(op: Op, ev: Event) {
    match op
    case Malloc(bytes) => ev == Refused(bytes) || (ev.Granted? && ev.bytes == bytes)
    case Store(p, k, x) => ev == Stored(p - 1, k, x)
    case Load(p, k) => ev.Loaded? && ev.h == p - 1 && ev.k == k
    case Free(p) => ev == Freed(p - 1)
  }

  /** The words of the heap at one moment, and where its blocks start. */
  datatype Moment = Moment(words: seq<int>, blocks: set<int>)

  ghost predicate NoneFits(m: Moment, bytes: nat) {
    forall s :: s in m.blocks && IsAvail(m.words, s) ==> Size(m.words, s) < H.Ints(bytes)
  }

  /** The operation is answered, on the program's memory, and malloc refuses exactly when no block is large enough. */
  ghost predicate Steps(m: Moment, op: Op, ev: Event, m': Moment) {
    && Answers(op, ev)
    && Happens(MemoryOf(m.words, m.blocks), ev, MemoryOf(m'.words, m'.blocks))
    && (op.Malloc? ==> (ev.Refused? <==> NoneFits(m, op.bytes)))
  }

  class Program {
    const heap: H.Heap
    var sizes: map<int, nat>  // the blocks it owns, and how many words it may use of each

    ghost predicate Valid()
      reads this, heap, heap.words
    {
      && heap.Valid() && heap.words.Length < 0x7FFF_FFFF
      && sizes.Keys == Memory().Keys
      && forall h :: h in sizes ==> sizes[h] == |Memory()[h]|
    }

    constructor (heap: H.Heap)
      requires heap.Valid() && heap.Live() == {} && heap.words.Length < 0x7FFF_FFFF
      ensures Valid() && this.heap == heap && Memory() == map[]
    {
      this.heap, sizes := heap, map[];
    }

    ghost function Memory(): Memory
      reads heap, heap.words
    {
      MemoryOf(heap.words[..], heap.blocks)
    }

    ghost function Now(): Moment
      reads heap, heap.words
    {
      Moment(heap.words[..], heap.blocks)
    }

    /** The operation uses a pointer that the program owns, within its block. */
    predicate Allowed(op: Op)
      reads this
    {
      match op
      case Malloc(bytes) => 0 < bytes <= H.WRAP - 4
      case Store(p, k, _) => p - 1 in sizes && k < sizes[p - 1]
      case Load(p, k) => p - 1 in sizes && k < sizes[p - 1]
      case Free(p) => p - 1 in sizes
    }

    /** That is what its memory says. */
    lemma AllowedIs(op: Op)
      requires Valid()
      ensures Allowed(op) <==>
        match op
        case Malloc(bytes) => 0 < bytes <= 0xFFFF_FFFC
        case Store(p, k, _) => p - 1 in Memory() && k < |Memory()[p - 1]|
        case Load(p, k) => p - 1 in Memory() && k < |Memory()[p - 1]|
        case Free(p) => p - 1 in Memory()
    {
      hide Shape, Linked, Listed, PayloadOf, LiveOf;
    }

    method Perform(op: Op) returns (ghost ev: Event)
      requires Valid() && Allowed(op)
      modifies this, heap, heap.words
      ensures Valid() && Steps(old(Now()), op, ev, Now())
    {
      hide Shape, Linked, Listed, SameTaken, MemoryOf, Size;
      match op
      case Malloc(bytes) =>
        ev := DoMalloc(bytes);
      case Store(p, k, x) =>
        ev := DoStore(p, k, x);
      case Load(p, k) =>
        ev := DoLoad(p, k);
      case Free(p) =>
        ev := DoFree(p);
        sizes := sizes - {p - 1};
    }

    method DoMalloc(bytes: nat) returns (ghost ev: Event)
      requires Valid() && 0 < bytes <= H.WRAP - 4
      modifies this, heap, heap.words
      ensures Valid() && Answers(Malloc(bytes), ev) && Happens(old(Memory()), ev, Memory())
      ensures ev.Refused? <==> NoneFits(old(Now()), bytes)
    {
      hide Shape, Linked, Listed, SameTaken, PayloadOf, LiveOf;
      ghost var a, blocks := heap.words[..], heap.blocks;
      var p := heap.Malloc(bytes);
      if p.None? {
        return Refused(bytes);
      }
      H.IntsEnough(bytes);
      GrantHappens(a, blocks, heap.words[..], heap.blocks, p.value - 1, bytes);
      PayloadSize(heap.words[..], heap.blocks, p.value - 1);
      sizes := sizes[p.value - 1 := HeapModel.Abs(heap.words[p.value - 1]) - 2];
      return Granted(bytes, p.value - 1);
    }

    method DoFree(p: nat) returns (ghost ev: Event)
      requires heap.Valid() && p - 1 in Memory()
      modifies heap, heap.words
      ensures heap.Valid() && ev == Freed(p - 1) && Happens(old(Memory()), ev, Memory())
    {
      hide Shape, Linked, Listed, SameTaken, PayloadOf;
      ghost var a, blocks := heap.words[..], heap.blocks;
      OwnedPointer(p);
      var ok := heap.Free(Some(p));
      FreeHappens(a, blocks, heap.words[..], heap.blocks, p - 1);
      return Freed(p - 1);
    }

    lemma OwnedPointer(p: nat)
      requires heap.Valid() && p - 1 in Memory()
      ensures p > 1 && p - 1 in heap.Live() && heap.Freeable(Some(p))
    {
      hide Linked, Listed, Chained, Apart, PayloadOf;
    }

    method DoLoad(p: nat, k: nat) returns (ghost ev: Event)
      requires heap.Valid() && p - 1 in Memory() && k < |Memory()[p - 1]|
      ensures ev.Loaded? && ev.h == p - 1 && ev.k == k && Happens(old(Memory()), ev, Memory())
    {
      hide Linked, Listed, Chained, Apart, PayloadOf;
      PayloadSize(heap.words[..], heap.blocks, p - 1);
      var x := heap.words[p + k];
      return Loaded(p - 1, k, x);
    }

    method DoStore(p: nat, k: nat, x: int) returns (ghost ev: Event)
      requires heap.Valid() && p - 1 in Memory() && k < |Memory()[p - 1]|
      modifies heap.words
      ensures heap.Valid() && ev == Stored(p - 1, k, x) && Happens(old(Memory()), ev, Memory())
    {
      hide Shape, Linked, Listed, SameTaken, PayloadOf, LiveOf;
      ghost var a, h := heap.words[..], p - 1;
      PayloadSize(a, heap.blocks, h);
      heap.words[p + k] := x;
      assert heap.words[..] == Put(a, h + 1 + k, x);
      PayloadOk(a, heap.words[..], heap.avail, heap.blocks, heap.list, h);
      StoreHappens(a, heap.blocks, heap.words[..], h, k, x);
      return Stored(p - 1, k, x);
    }

    /**
      Any schedule; an operation that does not use the program's own pointers ends the run.  The
      heap goes through `moments`, one before each operation and one at the end.
    */
    method Run(schedule: seq<Op>) returns (done: nat, ghost trace: seq<Event>, ghost moments: seq<Moment>)
      requires Valid()
      modifies this, heap, heap.words
      ensures Valid() && done <= |schedule| && |trace| == done && Runs(old(Memory()), trace, Memory())
      ensures |moments| == done + 1 && moments[0] == old(Now()) && moments[done] == Now()
      ensures forall i :: 0 <= i < done ==> Steps(moments[i], schedule[i], trace[i], moments[i + 1])
      ensures done < |schedule| ==> !Allowed(schedule[done])
    {
      hide Shape, Linked, Listed, MemoryOf, Happens, Answers, Valid, NoneFits;
      done, trace, moments := 0, [], [Now()];
      while done < |schedule|
        invariant Valid() && done <= |schedule| && |trace| == done && Runs(old(Memory()), trace, Memory())
        invariant |moments| == done + 1 && moments[0] == old(Now()) && moments[done] == Now()
        invariant forall i :: 0 <= i < done ==> Steps(moments[i], schedule[i], trace[i], moments[i + 1])
      {
        if !Allowed(schedule[done]) {
          return;
        }
        ghost var mid := Memory();
        ghost var ev := Perform(schedule[done]);
        RunsSnoc(old(Memory()), trace, mid, ev, Memory());
        done, trace, moments := done + 1, trace + [ev], moments + [Now()];
      }
    }
  }
}
