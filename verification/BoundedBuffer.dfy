/**
  The ring buffer of kernel/bb.h under any interleaving of any number of put and get calls.  Each
  call is a record of how far it got; a step is one semaphore operation (with direct hand-off to
  the first waiter), one access of a slot, or one update of head or tail.
*/
module BoundedBuffer {
  import opened Options
  import opened Semaphores
  import opened Tallies

  /** Slot: about to take nEmpty (put) or nFull (get); Post: about to give the other one. */
  datatype Phase = Slot | SlotWait | Lock | LockWait | Access | Bump | Unlock | Post | Done

  /** A call of put or get; `ticket` says it was the how-many-th call of its kind to access a slot. */
  datatype Op<T> =
    | Put(v: T, at: Phase, ticket: nat)
    | Get(got: Option<T>, at: Phase, ticket: nat)

  predicate Accessed<T>(op: Op<T>) { op.at.Bump? || op.at.Unlock? || op.at.Post? || op.at.Done? }

  function ToGo(at: Phase): nat {
    match at
    case Slot => 8 case SlotWait => 7 case Lock => 6 case LockWait => 5
    case Access => 4 case Bump => 3 case Unlock => 2 case Post => 1 case Done => 0
  }

  // ---- counting calls by how far they got

  datatype Tally = Empties | Fulls | Inside | Tails | Heads | Steps

  /** Calls that hold an empty slot, a filled slot, the mutex, or have yet to advance tail or head; and steps to go. */
  function Weight<T>(t: Tally, op: Op<T>): nat {
    var before, after := op.at.Lock? || op.at.LockWait? || op.at.Access?, op.at.Bump? || op.at.Unlock? || op.at.Post?;
    match t
    case Empties => if (op.Put? && before) || (op.Get? && after) then 1 else 0
    case Fulls => if (op.Get? && before) || (op.Put? && after) then 1 else 0
    case Inside => if op.at.Access? || op.at.Bump? || op.at.Unlock? then 1 else 0
    case Tails => if op.Put? && op.at.Bump? then 1 else 0
    case Heads => if op.Get? && op.at.Bump? then 1 else 0
    case Steps => ToGo(op.at)
  }

  function Weights<T>(t: Tally, ops: seq<Op<T>>): (w: seq<nat>)
    ensures |w| == |ops| && forall i :: 0 <= i < |w| ==> w[i] == Weight(t, ops[i])
  {
    seq(|ops|, (i: nat) requires i < |ops| => Weight(t, ops[i]))
  }

  function Sum<T>(t: Tally, ops: seq<Op<T>>): nat { Total(Weights(t, ops)) }

  /** Every change of one call, on all tallies at once. */
  lemma Recount<T>(ops: seq<Op<T>>, i: nat, op: Op<T>)
    requires i < |ops|
    ensures forall t :: Sum(t, ops[i := op]) + Weight(t, ops[i]) == Sum(t, ops) + Weight(t, op)
  {
    hide Weight;
    forall t ensures Sum(t, ops[i := op]) + Weight(t, ops[i]) == Sum(t, ops) + Weight(t, op) {
      TotalSet(Weights(t, ops), i, Weight(t, op));
      assert Weights(t, ops[i := op]) == Weights(t, ops)[i := Weight(t, op)];
    }
  }

  /** Only a call inside the mutex can be about to advance tail or head. */
  lemma SumInside<T>(ops: seq<Op<T>>)
    ensures Sum(Tails, ops) + Sum(Heads, ops) <= Sum(Inside, ops)
  {
    TotalBounded(Weights(Tails, ops), Weights(Heads, ops), Weights(Inside, ops));
  }

  lemma SumHas<T>(t: Tally, ops: seq<Op<T>>, i: nat)
    requires i < |ops|
    ensures Sum(t, ops) >= Weight(t, ops[i])
  {
    TotalHas(Weights(t, ops), i);
  }

  lemma SumSome<T>(t: Tally, ops: seq<Op<T>>) returns (i: nat)
    requires Sum(t, ops) > 0
    ensures i < |ops| && Weight(t, ops[i]) > 0
  {
    i := TotalSome(Weights(t, ops));
  }

  // ---- the invariant

  datatype Which = EmptyQ | FullQ | MutexQ

  predicate WaitsOn<T>(w: Which, op: Op<T>) {
    match w
    case EmptyQ => op.Put? && op.at.SlotWait?
    case FullQ => op.Get? && op.at.SlotWait?
    case MutexQ => op.at.LockWait?
  }

  function Waiting<T>(w: Which, ops: seq<Op<T>>): (b: seq<bool>)
    ensures |b| == |ops| && forall i :: 0 <= i < |b| ==> b[i] == WaitsOn(w, ops[i])
  {
    seq(|ops|, (i: nat) requires i < |ops| => WaitsOn(w, ops[i]))
  }

  ghost predicate WaitersOk<T>(w: Which, m: Sem<nat>, ops: seq<Op<T>>) { Waiters(m, Waiting(w, ops)) }

  /** Slots are neither made nor lost, and at most one call is inside the mutex. */
  ghost predicate Balanced<T>(n: nat, mutex: Sem<nat>, nEmpty: Sem<nat>, nFull: Sem<nat>, ops: seq<Op<T>>, items: int) {
    && nEmpty.count + Sum(Empties, ops) + items == n
    && nFull.count + Sum(Fulls, ops) == items
    && mutex.count + Sum(Inside, ops) == 1
  }

  /** The slot of the k-th item */
  function Index(k: int, n: nat): (i: nat)
    ensures n > 0 ==> i < n
  {
    if n == 0 then 0 else k % n
  }

  /** The unread items are in the ring, from head to tail; `stored` and `taken` list all there ever were. */
  ghost predicate Ring<T>(n: nat, data: seq<T>, head: nat, tail: nat, ops: seq<Op<T>>, stored: seq<T>, taken: seq<T>) {
    && n > 0 && |data| == n
    && taken <= stored
    && Sum(Tails, ops) <= |stored| && tail == Index(|stored| - Sum(Tails, ops), n)
    && Sum(Heads, ops) <= |taken| && head == Index(|taken| - Sum(Heads, ops), n)
    && (forall k :: |taken| <= k < |stored| ==> data[Index(k, n)] == stored[k])
  }

  /** There is a put, or a get, that was the k-th of its kind to access a slot. */
  ghost predicate Ticketed<T>(ops: seq<Op<T>>, put: bool, k: nat) {
    exists j :: 0 <= j < |ops| && ops[j].Put? == put && Accessed(ops[j]) && ops[j].ticket == k
  }

  /** The k-th put stored the k-th item and the k-th get took it. */
  ghost predicate Tickets<T>(ops: seq<Op<T>>, stored: seq<T>, taken: seq<T>) {
    && (forall i :: 0 <= i < |ops| && Accessed(ops[i]) ==>
          if ops[i].Put? then ops[i].ticket < |stored| && stored[ops[i].ticket] == ops[i].v
          else ops[i].ticket < |taken| && ops[i].got == Some(taken[ops[i].ticket]))
    && (forall i, j :: 0 <= i < j < |ops| && Accessed(ops[i]) && Accessed(ops[j]) && ops[i].Put? == ops[j].Put? ==>
          ops[i].ticket != ops[j].ticket)
    && (forall k :: 0 <= k < |stored| ==> Ticketed(ops, true, k))
    && (forall k :: 0 <= k < |taken| ==> Ticketed(ops, false, k))
  }

  /** A call keeps the ticket it has. */
  lemma TicketedStays<T>(ops: seq<Op<T>>, i: nat, op: Op<T>, put: bool, k: nat)
    requires Ticketed(ops, put, k) && i < |ops|
    requires Accessed(ops[i]) ==> Accessed(op) && op.ticket == ops[i].ticket && op.Put? == ops[i].Put?
    ensures Ticketed(ops[i := op], put, k)
  {
    var j :| 0 <= j < |ops| && ops[j].Put? == put && Accessed(ops[j]) && ops[j].ticket == k;
    assert Accessed(ops[i := op][j]) && ops[i := op][j].ticket == k;
  }

  /** A put that accesses its slot draws the next ticket of the puts, a get the next of the gets. */
  lemma TicketsDraw<T>(ops: seq<Op<T>>, stored: seq<T>, taken: seq<T>, i: nat, op: Op<T>, x: T)
    requires Tickets(ops, stored, taken) && i < |ops| && !Accessed(ops[i]) && Accessed(op) && op.Put? == ops[i].Put?
    requires op.ticket == if op.Put? then |stored| else |taken|
    requires if op.Put? then op.v == x else op.got == Some(x)
    ensures Tickets(ops[i := op], if op.Put? then stored + [x] else stored, if op.Put? then taken else taken + [x])
  {
    hide Ticketed;
    var ops' := ops[i := op];
    forall put, k | 0 <= k < |if put then stored else taken| ensures Ticketed(ops', put, k) {
      assert Ticketed(ops, put, k);
      TicketedStays(ops, i, op, put, k);
    }
    TicketDrawn(ops[i := op], i);
  }

  lemma TicketDrawn<T>(ops: seq<Op<T>>, i: nat)
    requires i < |ops| && Accessed(ops[i])
    ensures Ticketed(ops, ops[i].Put?, ops[i].ticket)
  {
  }

  ghost predicate Ok<T>(n: nat, data: seq<T>, head: nat, tail: nat, mutex: Sem<nat>, nEmpty: Sem<nat>, nFull: Sem<nat>,
                              ops: seq<Op<T>>, stored: seq<T>, taken: seq<T>)
  {
    && Ring(n, data, head, tail, ops, stored, taken)
    && Tickets(ops, stored, taken)
    && Balanced(n, mutex, nEmpty, nFull, ops, |stored| - |taken|)
    && WaitersOk(MutexQ, mutex, ops) && WaitersOk(EmptyQ, nEmpty, ops) && WaitersOk(FullQ, nFull, ops)
  }

  // ---- one call moves on

  function Moved<T>(op: Op<T>, at: Phase): Op<T> { op.(at := at) }

  lemma DownWaiters<T>(w: Which, m: Sem<nat>, ops: seq<Op<T>>, i: nat, op: Op<T>)
    requires WaitersOk(w, m, ops) && i < |ops| && !WaitsOn(w, ops[i]) && (WaitsOn(w, op) <==> Waits(m))
    ensures WaitersOk(w, Down(m, i), ops[i := op])
  {
    WaitersDown(m, Waiting(w, ops), i);
    assert Waiting(w, ops[i := op]) == Waiting(w, ops)[i := Waits(m)];
  }

  lemma UpWaiters<T>(w: Which, m: Sem<nat>, ops: seq<Op<T>>, op: Op<T>)
    requires WaitersOk(w, m, ops) && m.waiting != [] && !WaitsOn(w, op)
    ensures m.waiting[0] < |ops| && WaitsOn(w, ops[m.waiting[0]]) && WaitersOk(w, Up(m), ops[m.waiting[0] := op])
  {
    WaitersUp(m, Waiting(w, ops));
    assert Waiting(w, ops[m.waiting[0] := op]) == Waiting(w, ops)[m.waiting[0] := false];
  }

  /** A semaphore that a change of one call does not concern. */
  lemma OtherWaiters<T>(w: Which, m: Sem<nat>, ops: seq<Op<T>>, i: nat, op: Op<T>)
    requires WaitersOk(w, m, ops) && i < |ops| && !WaitsOn(w, ops[i]) && !WaitsOn(w, op)
    ensures WaitersOk(w, m, ops[i := op])
  {
    assert Waiting(w, ops[i := op]) == Waiting(w, ops);
  }

  lemma TicketsMove<T>(ops: seq<Op<T>>, stored: seq<T>, taken: seq<T>, i: nat, at: Phase)
    requires Tickets(ops, stored, taken) && i < |ops| && (Accessed(ops[i]) <==> Accessed(Moved(ops[i], at)))
    ensures Tickets(ops[i := Moved(ops[i], at)], stored, taken)
  {
    hide Ticketed;
    var ops' := ops[i := Moved(ops[i], at)];
    forall put, k | 0 <= k < |if put then stored else taken| ensures Ticketed(ops', put, k) {
      assert Ticketed(ops, put, k);
      TicketedStays(ops, i, Moved(ops[i], at), put, k);
    }
  }

  lemma TicketsBegin<T>(ops: seq<Op<T>>, stored: seq<T>, taken: seq<T>, op: Op<T>)
    requires Tickets(ops, stored, taken) && !Accessed(op)
    ensures Tickets(ops + [op], stored, taken)
  {
    hide Ticketed;
    forall put, k | 0 <= k < |if put then stored else taken| ensures Ticketed(ops + [op], put, k) {
      assert Ticketed(ops, put, k);
      TicketedMore(ops, op, put, k);
    }
  }

  lemma TicketedMore<T>(ops: seq<Op<T>>, op: Op<T>, put: bool, k: nat)
    requires Ticketed(ops, put, k)
    ensures Ticketed(ops + [op], put, k)
  {
    var j :| 0 <= j < |ops| && ops[j].Put? == put && Accessed(ops[j]) && ops[j].ticket == k;
    assert Accessed((ops + [op])[j]) && (ops + [op])[j].ticket == k;
  }

  lemma RingMove<T>(n: nat, data: seq<T>, head: nat, tail: nat, ops: seq<Op<T>>, stored: seq<T>, taken: seq<T>,
                    i: nat, op: Op<T>)
    requires Ring(n, data, head, tail, ops, stored, taken) && i < |ops|
    requires Weight(Tails, op) == Weight(Tails, ops[i]) && Weight(Heads, op) == Weight(Heads, ops[i])
    ensures Ring(n, data, head, tail, ops[i := op], stored, taken)
  {
    Recount(ops, i, op);
  }

  /** down by call i: it goes on to `next`, or waits. */
  function DownAt<T>(ops: seq<Op<T>>, m: Sem<nat>, i: nat, wait: Phase, next: Phase): seq<Op<T>>
    requires i < |ops|
  {
    ops[i := Moved(ops[i], if Waits(m) then wait else next)]
  }

  /** Call i goes on to `self` after an up that lets the first waiter, if any, go on to `next`. */
  function UpAt<T>(ops: seq<Op<T>>, m: Sem<nat>, i: nat, self: Phase, next: Phase): seq<Op<T>>
    requires i < |ops|
  {
    var ops1 := ops[i := Moved(ops[i], self)];
    if m.waiting != [] && m.waiting[0] < |ops| then ops1[m.waiting[0] := Moved(ops1[m.waiting[0]], next)] else ops1
  }

  lemma OnSlot<T>(n: nat, data: seq<T>, head: nat, tail: nat, mutex: Sem<nat>, nEmpty: Sem<nat>, nFull: Sem<nat>,
                  ops: seq<Op<T>>, stored: seq<T>, taken: seq<T>, i: nat)
    requires Ok(n, data, head, tail, mutex, nEmpty, nFull, ops, stored, taken) && i < |ops| && ops[i].at.Slot?
    ensures ops[i].Put? ==>
      Ok(n, data, head, tail, mutex, Down(nEmpty, i), nFull, DownAt(ops, nEmpty, i, SlotWait, Lock), stored, taken)
    ensures ops[i].Get? ==>
      Ok(n, data, head, tail, mutex, nEmpty, Down(nFull, i), DownAt(ops, nFull, i, SlotWait, Lock), stored, taken)
    ensures Sum(Steps, DownAt(ops, if ops[i].Put? then nEmpty else nFull, i, SlotWait, Lock)) < Sum(Steps, ops)
  {
    hide Ring, Tickets, WaitersOk, Sum;
    var m := if ops[i].Put? then nEmpty else nFull;
    var op := Moved(ops[i], if Waits(m) then SlotWait else Lock);
    Recount(ops, i, op);
    RingMove(n, data, head, tail, ops, stored, taken, i, op);
    TicketsMove(ops, stored, taken, i, op.at);
    OtherWaiters(MutexQ, mutex, ops, i, op);
    DownWaiters(if op.Put? then EmptyQ else FullQ, m, ops, i, op);
    OtherWaiters(if op.Put? then FullQ else EmptyQ, if op.Put? then nFull else nEmpty, ops, i, op);
  }

  lemma OnLock<T>(n: nat, data: seq<T>, head: nat, tail: nat, mutex: Sem<nat>, nEmpty: Sem<nat>, nFull: Sem<nat>,
                  ops: seq<Op<T>>, stored: seq<T>, taken: seq<T>, i: nat)
    requires Ok(n, data, head, tail, mutex, nEmpty, nFull, ops, stored, taken) && i < |ops| && ops[i].at.Lock?
    ensures Ok(n, data, head, tail, Down(mutex, i), nEmpty, nFull,
               DownAt(ops, mutex, i, LockWait, Access), stored, taken)
    ensures Sum(Steps, DownAt(ops, mutex, i, LockWait, Access)) < Sum(Steps, ops)
  {
    hide Ring, Tickets, WaitersOk, Sum;
    var op := Moved(ops[i], if Waits(mutex) then LockWait else Access);
    Recount(ops, i, op);
    RingMove(n, data, head, tail, ops, stored, taken, i, op);
    TicketsMove(ops, stored, taken, i, op.at);
    DownWaiters(MutexQ, mutex, ops, i, op);
    OtherWaiters(EmptyQ, nEmpty, ops, i, op);
    OtherWaiters(FullQ, nFull, ops, i, op);
  }

  /** A call inside the mutex is alone there: nobody else is between an access and its index update. */
  lemma Alone<T>(n: nat, mutex: Sem<nat>, nEmpty: Sem<nat>, nFull: Sem<nat>, ops: seq<Op<T>>, items: int, i: nat)
    requires Balanced(n, mutex, nEmpty, nFull, ops, items) && i < |ops| && Weight(Inside, ops[i]) == 1
    ensures mutex.count == 0 && forall j :: 0 <= j < |ops| && j != i ==> Weight(Inside, ops[j]) == 0
    ensures Sum(Tails, ops) + Sum(Heads, ops) == if ops[i].at.Bump? then 1 else 0
  {
    SumHas(Inside, ops, i);
    forall j | 0 <= j < |ops| && j != i ensures Weight(Inside, ops[j]) == 0 {
      if i < j { TotalTwo(Weights(Inside, ops), i, j); } else { TotalTwo(Weights(Inside, ops), j, i); }
    }
    SumInside(ops);
    if ops[i].at.Bump? {
      SumHas(Tails, ops, i);
      SumHas(Heads, ops, i);
    } else if Sum(Tails, ops) > 0 {
      var j := SumSome(Tails, ops);
    } else if Sum(Heads, ops) > 0 {
      var j := SumSome(Heads, ops);
    }
  }

  /**
    When a put is about to store there is a free slot and tail points at it: no unread item is
    overwritten.  When a get is about to read there is an item and head points at the oldest.
  */
  lemma AccessSafe<T>(n: nat, data: seq<T>, head: nat, tail: nat, mutex: Sem<nat>, nEmpty: Sem<nat>, nFull: Sem<nat>,
                      ops: seq<Op<T>>, stored: seq<T>, taken: seq<T>, i: nat)
    requires Ok(n, data, head, tail, mutex, nEmpty, nFull, ops, stored, taken) && i < |ops| && ops[i].at.Access?
    ensures ops[i].Put? ==> |stored| - |taken| < n && tail == Index(|stored|, n)
    ensures ops[i].Put? ==> forall k :: |taken| <= k < |stored| ==> Index(k, n) != tail
    ensures ops[i].Get? ==> |taken| < |stored| && head == Index(|taken|, n) && data[head] == stored[|taken|]
  {
    hide WaitersOk, Sum, Tickets, Index;
    Alone(n, mutex, nEmpty, nFull, ops, |stored| - |taken|, i);
    SumHas(if ops[i].Put? then Empties else Fulls, ops, i);
    if ops[i].Put? {
      forall k | |taken| <= k < |stored| ensures Index(k, n) != tail {
        Apart(k, |stored|, n);
      }
    }
  }

  lemma Multiple(n: nat, d: int)
    ensures d >= 1 ==> n * d >= n
    ensures d <= -1 ==> n * d <= 0 - n
  {
  }

  /** Two numbers less than n apart have different slots. */
  lemma Apart(k: nat, l: nat, n: nat)
    requires k < l < k + n
    ensures Index(k, n) != Index(l, n)
  {
    var d := l / n - k / n;
    assert l - k == n * d + (l % n - k % n);
    Multiple(n, d);
  }

  lemma OnStore<T>(n: nat, data: seq<T>, head: nat, tail: nat, mutex: Sem<nat>, nEmpty: Sem<nat>, nFull: Sem<nat>,
                   ops: seq<Op<T>>, stored: seq<T>, taken: seq<T>, i: nat)
    requires Ok(n, data, head, tail, mutex, nEmpty, nFull, ops, stored, taken) && i < |ops|
    requires ops[i].at.Access? && ops[i].Put? && tail < n
    ensures Ok(n, data[tail := ops[i].v], head, tail, mutex, nEmpty, nFull,
               ops[i := Put(ops[i].v, Bump, |stored|)], stored + [ops[i].v], taken)
    ensures Sum(Steps, ops[i := Put(ops[i].v, Bump, |stored|)]) < Sum(Steps, ops)
  {
    hide WaitersOk, Sum, Index, Tickets;
    AccessSafe(n, data, head, tail, mutex, nEmpty, nFull, ops, stored, taken, i);
    Alone(n, mutex, nEmpty, nFull, ops, |stored| - |taken|, i);
    var op := Put(ops[i].v, Bump, |stored|);
    TicketsDraw(ops, stored, taken, i, op, ops[i].v);
    Recount(ops, i, op);
    OtherWaiters(MutexQ, mutex, ops, i, op);
    OtherWaiters(EmptyQ, nEmpty, ops, i, op);
    OtherWaiters(FullQ, nFull, ops, i, op);
  }

  lemma OnRead<T>(n: nat, data: seq<T>, head: nat, tail: nat, mutex: Sem<nat>, nEmpty: Sem<nat>, nFull: Sem<nat>,
                  ops: seq<Op<T>>, stored: seq<T>, taken: seq<T>, i: nat)
    requires Ok(n, data, head, tail, mutex, nEmpty, nFull, ops, stored, taken) && i < |ops|
    requires ops[i].at.Access? && ops[i].Get? && head < n
    ensures Ok(n, data, head, tail, mutex, nEmpty, nFull,
               ops[i := Get(Some(data[head]), Bump, |taken|)], stored, taken + [data[head]])
    ensures Sum(Steps, ops[i := Get(Some(data[head]), Bump, |taken|)]) < Sum(Steps, ops)
  {
    hide WaitersOk, Sum, Index, Tickets;
    AccessSafe(n, data, head, tail, mutex, nEmpty, nFull, ops, stored, taken, i);
    Alone(n, mutex, nEmpty, nFull, ops, |stored| - |taken|, i);
    var op := Get(Some(data[head]), Bump, |taken|);
    TicketsDraw(ops, stored, taken, i, op, data[head]);
    Recount(ops, i, op);
    OtherWaiters(MutexQ, mutex, ops, i, op);
    OtherWaiters(EmptyQ, nEmpty, ops, i, op);
    OtherWaiters(FullQ, nFull, ops, i, op);
  }

  lemma OnBump<T>(n: nat, data: seq<T>, head: nat, tail: nat, mutex: Sem<nat>, nEmpty: Sem<nat>, nFull: Sem<nat>,
                  ops: seq<Op<T>>, stored: seq<T>, taken: seq<T>, i: nat)
    requires Ok(n, data, head, tail, mutex, nEmpty, nFull, ops, stored, taken) && i < |ops| && ops[i].at.Bump?
    ensures n > 0
    ensures var op := Moved(ops[i], Unlock);
      var head', tail' := if op.Get? then (head + 1) % n else head, if op.Put? then (tail + 1) % n else tail;
      Ok(n, data, head', tail', mutex, nEmpty, nFull, ops[i := op], stored, taken)
    ensures Sum(Steps, ops[i := Moved(ops[i], Unlock)]) < Sum(Steps, ops)
  {
    hide WaitersOk, Sum, Index, Tickets;
    Alone(n, mutex, nEmpty, nFull, ops, |stored| - |taken|, i);
    var op := Moved(ops[i], Unlock);
    SumHas(Tails, ops, i);
    SumHas(Heads, ops, i);
    Recount(ops, i, op);
    if op.Put? { NextIndex(|stored| - 1, n); } else { NextIndex(|taken| - 1, n); }
    TicketsMove(ops, stored, taken, i, Unlock);
    OtherWaiters(MutexQ, mutex, ops, i, op);
    OtherWaiters(EmptyQ, nEmpty, ops, i, op);
    OtherWaiters(FullQ, nFull, ops, i, op);
  }

  lemma NextIndex(k: int, n: nat)
    requires n > 0
    ensures (Index(k, n) + 1) % n == Index(k + 1, n)
  {
    var q, r := k / n, k % n;
    if r + 1 < n {
      Quotient(k + 1, q, r + 1, n);
      Quotient(r + 1, 0, r + 1, n);
    } else {
      assert n * (q + 1) == n * q + n;
      Quotient(k + 1, q + 1, 0, n);
      Quotient(n, 1, 0, n);
    }
  }

  lemma Quotient(a: int, q: int, r: int, n: nat)
    requires n > 0 && a == n * q + r && 0 <= r < n
    ensures a % n == r
  {
    var d := q - a / n;
    assert n * d == a % n - r;
    Multiple(n, d);
  }

  /** What an up does to the calls and the queue of its semaphore. */
  lemma UpStep<T>(w: Which, m: Sem<nat>, ops: seq<Op<T>>, stored: seq<T>, taken: seq<T>, i: nat, self: Phase,
                  next: Phase)
    requires WaitersOk(w, m, ops) && Tickets(ops, stored, taken) && i < |ops| && !WaitsOn(w, ops[i])
    requires var op := Moved(ops[i], self); !WaitsOn(w, op) && (Accessed(op) <==> Accessed(ops[i]))
    requires if w == MutexQ then next == Access else next == Lock
    ensures WaitersOk(w, Up(m), UpAt(ops, m, i, self, next)) && Tickets(UpAt(ops, m, i, self, next), stored, taken)
    ensures m.waiting != [] ==> m.waiting[0] < |ops| && m.waiting[0] != i && WaitsOn(w, ops[m.waiting[0]])
  {
    var ops1 := ops[i := Moved(ops[i], self)];
    OtherWaiters(w, m, ops, i, ops1[i]);
    TicketsMove(ops, stored, taken, i, self);
    if m.waiting != [] {
      var j := m.waiting[0];
      UpWaiters(w, m, ops1, Moved(ops1[j], next));
      TicketsMove(ops1, stored, taken, j, next);
    }
  }

  /** A semaphore other than the one whose up it is. */
  lemma UpOther<T>(w: Which, m: Sem<nat>, u: Sem<nat>, ops: seq<Op<T>>, i: nat, self: Phase, next: Phase)
    requires WaitersOk(w, m, ops) && i < |ops| && !WaitsOn(w, ops[i]) && !WaitsOn(w, Moved(ops[i], self))
    requires u.waiting != [] ==> u.waiting[0] < |ops| && u.waiting[0] != i
    requires u.waiting != [] ==> !WaitsOn(w, ops[u.waiting[0]]) && !WaitsOn(w, Moved(ops[u.waiting[0]], next))
    ensures WaitersOk(w, m, UpAt(ops, u, i, self, next))
  {
    hide WaitersOk;
    var ops1 := ops[i := Moved(ops[i], self)];
    OtherWaiters(w, m, ops, i, ops1[i]);
    if u.waiting != [] {
      OtherWaiters(w, m, ops1, u.waiting[0], Moved(ops1[u.waiting[0]], next));
    }
  }

  lemma UpCounts<T>(ops: seq<Op<T>>, u: Sem<nat>, i: nat, self: Phase, next: Phase)
    requires i < |ops| && (u.waiting != [] ==> u.waiting[0] < |ops| && u.waiting[0] != i)
    ensures forall t ::
      Sum(t, UpAt(ops, u, i, self, next)) + Weight(t, ops[i])
        + (if u.waiting != [] then Weight(t, ops[u.waiting[0]]) else 0)
      == Sum(t, ops) + Weight(t, Moved(ops[i], self))
        + (if u.waiting != [] then Weight(t, Moved(ops[u.waiting[0]], next)) else 0)
  {
    hide Sum, Weight;
    var ops1 := ops[i := Moved(ops[i], self)];
    Recount(ops, i, ops1[i]);
    if u.waiting != [] {
      var j := u.waiting[0];
      Recount(ops1, j, Moved(ops1[j], next));
    }
  }

  lemma OnUnlock<T>(n: nat, data: seq<T>, head: nat, tail: nat, mutex: Sem<nat>, nEmpty: Sem<nat>, nFull: Sem<nat>,
                    ops: seq<Op<T>>, stored: seq<T>, taken: seq<T>, i: nat)
    requires Ok(n, data, head, tail, mutex, nEmpty, nFull, ops, stored, taken) && i < |ops| && ops[i].at.Unlock?
    ensures Ok(n, data, head, tail, Up(mutex), nEmpty, nFull, UpAt(ops, mutex, i, Post, Access), stored, taken)
    ensures Sum(Steps, UpAt(ops, mutex, i, Post, Access)) < Sum(Steps, ops)
  {
    hide WaitersOk, Sum, Tickets;
    UpStep(MutexQ, mutex, ops, stored, taken, i, Post, Access);
    UpOther(EmptyQ, nEmpty, mutex, ops, i, Post, Access);
    UpOther(FullQ, nFull, mutex, ops, i, Post, Access);
    UpCounts(ops, mutex, i, Post, Access);
  }

  lemma OnPost<T>(n: nat, data: seq<T>, head: nat, tail: nat, mutex: Sem<nat>, nEmpty: Sem<nat>, nFull: Sem<nat>,
                  ops: seq<Op<T>>, stored: seq<T>, taken: seq<T>, i: nat)
    requires Ok(n, data, head, tail, mutex, nEmpty, nFull, ops, stored, taken) && i < |ops| && ops[i].at.Post?
    ensures ops[i].Put? ==>
      Ok(n, data, head, tail, mutex, nEmpty, Up(nFull), UpAt(ops, nFull, i, Done, Lock), stored, taken)
    ensures ops[i].Get? ==>
      Ok(n, data, head, tail, mutex, Up(nEmpty), nFull, UpAt(ops, nEmpty, i, Done, Lock), stored, taken)
    ensures Sum(Steps, UpAt(ops, if ops[i].Put? then nFull else nEmpty, i, Done, Lock)) < Sum(Steps, ops)
  {
    hide WaitersOk, Sum, Tickets;
    var w, m := if ops[i].Put? then FullQ else EmptyQ, if ops[i].Put? then nFull else nEmpty;
    UpStep(w, m, ops, stored, taken, i, Done, Lock);
    UpOther(MutexQ, mutex, m, ops, i, Done, Lock);
    UpOther(if ops[i].Put? then EmptyQ else FullQ, if ops[i].Put? then nEmpty else nFull, m, ops, i, Done, Lock);
    UpCounts(ops, m, i, Done, Lock);
  }

  lemma SumIdle<T>(ops: seq<Op<T>>, op: Op<T>)
    requires op.at.Slot?
    ensures forall t :: t != Steps ==> Sum(t, ops + [op]) == Sum(t, ops)
  {
    forall t | t != Steps ensures Sum(t, ops + [op]) == Sum(t, ops) {
      TotalAppend(Weights(t, ops), 0);
      assert Weights(t, ops + [op]) == Weights(t, ops) + [0];
    }
  }

  lemma OnBegin<T>(n: nat, data: seq<T>, head: nat, tail: nat, mutex: Sem<nat>, nEmpty: Sem<nat>, nFull: Sem<nat>,
                   ops: seq<Op<T>>, stored: seq<T>, taken: seq<T>, op: Op<T>)
    requires Ok(n, data, head, tail, mutex, nEmpty, nFull, ops, stored, taken) && op.at.Slot?
    ensures Ok(n, data, head, tail, mutex, nEmpty, nFull, ops + [op], stored, taken)
  {
    hide Index, Weight, Sum, Tickets;
    SumIdle(ops, op);
    TicketsBegin(ops, stored, taken, op);
    forall w, m | WaitersOk(w, m, ops) ensures WaitersOk(w, m, ops + [op]) {
      WaitersAppend(m, Waiting(w, ops));
      assert Waiting(w, ops + [op]) == Waiting(w, ops) + [false];
    }
  }

  // ---- results about every reachable state

  predicate Blocked<T>(op: Op<T>) { op.at.SlotWait? || op.at.LockWait? || op.at.Done? }

  /**
    No deadlock: when no call can move, the mutex is free, and either only gets wait and the
    buffer is empty, or only puts wait and it is full, or every call is done.
  */
  lemma Stuck<T>(n: nat, data: seq<T>, head: nat, tail: nat, mutex: Sem<nat>, nEmpty: Sem<nat>, nFull: Sem<nat>,
                 ops: seq<Op<T>>, stored: seq<T>, taken: seq<T>)
    requires Ok(n, data, head, tail, mutex, nEmpty, nFull, ops, stored, taken)
    requires forall i :: 0 <= i < |ops| ==> Blocked(ops[i])
    ensures forall i :: 0 <= i < |ops| ==> !ops[i].at.LockWait?
    ensures (exists i :: 0 <= i < |ops| && WaitsOn(FullQ, ops[i])) ==> |stored| == |taken|
    ensures (exists i :: 0 <= i < |ops| && WaitsOn(EmptyQ, ops[i])) ==> |stored| == |taken| + n
  {
    hide Sum, Ring, Tickets;
    if Sum(Inside, ops) > 0 { var i := SumSome(Inside, ops); }
    NoWaiter(MutexQ, mutex, ops);
    NoWaiter(FullQ, nFull, ops);
    NoWaiter(EmptyQ, nEmpty, ops);
    if Sum(Fulls, ops) > 0 { var i := SumSome(Fulls, ops); }
    if Sum(Empties, ops) > 0 { var i := SumSome(Empties, ops); }
  }

  lemma NoWaiter<T>(w: Which, m: Sem<nat>, ops: seq<Op<T>>)
    requires WaitersOk(w, m, ops)
    ensures m.count > 0 ==> forall i :: 0 <= i < |ops| ==> !WaitsOn(w, ops[i])
  {
  }

  /**
    Every get that has read returns what one put stored, the put with the same ticket; no other
    put and no other get has that ticket.
  */
  lemma Delivered<T>(n: nat, data: seq<T>, head: nat, tail: nat, mutex: Sem<nat>, nEmpty: Sem<nat>, nFull: Sem<nat>,
                     ops: seq<Op<T>>, stored: seq<T>, taken: seq<T>, i: nat)
    returns (j: nat)
    requires Ok(n, data, head, tail, mutex, nEmpty, nFull, ops, stored, taken)
    requires i < |ops| && ops[i].Get? && Accessed(ops[i])
    ensures j < |ops| && ops[j].Put? && Accessed(ops[j]) && ops[j].ticket == ops[i].ticket
    ensures ops[i].got == Some(ops[j].v)
    ensures forall k :: 0 <= k < |ops| && k != i && k != j && Accessed(ops[k]) ==> ops[k].ticket != ops[i].ticket
  {
    hide Sum, WaitersOk, Index;
    assert Ticketed(ops, true, ops[i].ticket);
    j :| 0 <= j < |ops| && ops[j].Put? && Accessed(ops[j]) && ops[j].ticket == ops[i].ticket;
  }

  /** Every item that was taken went to one get, the one with the ticket of the put that stored it. */
  lemma Fetched<T>(n: nat, data: seq<T>, head: nat, tail: nat, mutex: Sem<nat>, nEmpty: Sem<nat>, nFull: Sem<nat>,
                   ops: seq<Op<T>>, stored: seq<T>, taken: seq<T>, j: nat)
    returns (i: nat)
    requires Ok(n, data, head, tail, mutex, nEmpty, nFull, ops, stored, taken)
    requires j < |ops| && ops[j].Put? && Accessed(ops[j]) && ops[j].ticket < |taken|
    ensures i < |ops| && ops[i].Get? && Accessed(ops[i]) && ops[i].ticket == ops[j].ticket
    ensures ops[i].got == Some(ops[j].v)
  {
    hide Sum, WaitersOk, Index;
    assert Ticketed(ops, false, ops[j].ticket);
    i :| 0 <= i < |ops| && ops[i].Get? && Accessed(ops[i]) && ops[i].ticket == ops[j].ticket;
  }

  // ---- the buffer and its callers

  /** What the schedule does next: a new call starts, or call i takes its next step. */
  datatype Move<T> = NewPut(v: T) | NewGet | Step(i: nat)

  /** The buffer as its callers see it: a put adds to `stored`, a get takes the first item not yet taken. */
  datatype State<T> =
    State(mutex: Sem<nat>, nEmpty: Sem<nat>, nFull: Sem<nat>, ops: seq<Op<T>>, stored: seq<T>, taken: seq<T>)

  function Next<T>(s: State<T>, m: Move<T>): State<T> {
    match m
    case NewPut(v) => s.(ops := s.ops + [Put(v, Slot, 0)])
    case NewGet => s.(ops := s.ops + [Get(None, Slot, 0)])
    case Step(i) => if i < |s.ops| then NextOf(s, i) else s
  }

  /** Call i takes its next step; one that waits or is done stays as it is. */
  function NextOf<T>(s: State<T>, i: nat): State<T>
    requires i < |s.ops|
  {
    var op := s.ops[i];
    match op.at
    case Slot =>
      if op.Put? then s.(nEmpty := Down(s.nEmpty, i), ops := DownAt(s.ops, s.nEmpty, i, SlotWait, Lock))
      else s.(nFull := Down(s.nFull, i), ops := DownAt(s.ops, s.nFull, i, SlotWait, Lock))
    case Lock => s.(mutex := Down(s.mutex, i), ops := DownAt(s.ops, s.mutex, i, LockWait, Access))
    case Access =>
      if op.Put? then s.(stored := s.stored + [op.v], ops := s.ops[i := Put(op.v, Bump, |s.stored|)])
      else if |s.taken| < |s.stored| then
        var x := s.stored[|s.taken|];
        s.(taken := s.taken + [x], ops := s.ops[i := Get(Some(x), Bump, |s.taken|)])
      else s
    case Bump => s.(ops := s.ops[i := Moved(op, Unlock)])
    case Unlock => s.(mutex := Up(s.mutex), ops := UpAt(s.ops, s.mutex, i, Post, Access))
    case Post =>
      if op.Put? then s.(nFull := Up(s.nFull), ops := UpAt(s.ops, s.nFull, i, Done, Lock))
      else s.(nEmpty := Up(s.nEmpty), ops := UpAt(s.ops, s.nEmpty, i, Done, Lock))
    case _ => s
  }

  function Runs<T>(s: State<T>, moves: seq<Move<T>>): State<T>
    decreases |moves|
  {
    if moves == [] then s else Next(Runs(s, moves[..|moves| - 1]), moves[|moves| - 1])
  }

  lemma RunsSnoc<T>(s: State<T>, moves: seq<Move<T>>, m: Move<T>)
    ensures Runs(s, moves + [m]) == Next(Runs(s, moves), m)
  {
    assert (moves + [m])[..|moves|] == moves;
  }

  /** What a call is: a put of an item, or a get. */
  function Kind<T>(op: Op<T>): Option<T> { if op.Put? then Some(op.v) else None }

  function Kinds<T>(ops: seq<Op<T>>): seq<Option<T>> { seq(|ops|, (i: nat) requires i < |ops| => Kind(ops[i])) }

  function Started<T>(m: Move<T>): seq<Option<T>> {
    match m case NewPut(v) => [Some(v)] case NewGet => [None] case _ => []
  }

  /** The calls that a schedule starts, in order */
  function Asked<T>(moves: seq<Move<T>>): seq<Option<T>>
    decreases |moves|
  {
    if moves == [] then []
    else Asked(moves[..|moves| - 1]) + Started(moves[|moves| - 1])
  }

  /** The calls are those there were, and the ones that the schedule starts, each put with its item. */
  lemma {:induction false} CallsAre<T>(s: State<T>, moves: seq<Move<T>>)
    ensures Kinds(Runs(s, moves).ops) == Kinds(s.ops) + Asked(moves)
    decreases |moves|
  {
    if moves != [] {
      CallsAre(s, moves[..|moves| - 1]);
      KindsNext(Runs(s, moves[..|moves| - 1]), moves[|moves| - 1]);
    }
  }

  lemma KindsNext<T>(s: State<T>, m: Move<T>)
    ensures Kinds(Next(s, m).ops) == Kinds(s.ops) + Started(m)
  {
    if m.Step? && m.i < |s.ops| {
      var w := if s.ops[m.i].Put? then s.nEmpty else s.nFull;
      var w' := if s.ops[m.i].Put? then s.nFull else s.nEmpty;
      KindsAt(s.ops, w, m.i, SlotWait, Lock);
      KindsAt(s.ops, s.mutex, m.i, LockWait, Access);
      KindsAt(s.ops, s.mutex, m.i, Post, Access);
      KindsAt(s.ops, w', m.i, Done, Lock);
    }
  }

  lemma KindsAt<T>(ops: seq<Op<T>>, m: Sem<nat>, i: nat, p: Phase, q: Phase)
    requires i < |ops|
    ensures Kinds(DownAt(ops, m, i, p, q)) == Kinds(UpAt(ops, m, i, p, q)) == Kinds(ops)
  {
  }

  /** The same calls, however far they got: puts keep their items, and whoever had a slot keeps what came of it. */
  ghost predicate SameOp<T>(op: Op<T>, op': Op<T>) {
    && op'.Put? == op.Put? && (op.Put? ==> op'.v == op.v)
    && (Accessed(op) ==> Accessed(op') && op'.ticket == op.ticket && (op.Get? ==> op'.got == op.got))
    && (op.at.Done? ==> op' == op)
  }

  ghost predicate SameOps<T>(ops: seq<Op<T>>, ops': seq<Op<T>>) {
    |ops'| == |ops| && forall i :: 0 <= i < |ops| ==> SameOp(ops[i], ops'[i])
  }

  /** An up does not disturb the calls, since the first waiter is one that waits. */
  lemma UpSame<T>(w: Which, m: Sem<nat>, ops: seq<Op<T>>, i: nat, self: Phase, next: Phase)
    requires WaitersOk(w, m, ops) && i < |ops| && !WaitsOn(w, ops[i]) && !ops[i].at.Done?
    requires Accessed(ops[i]) ==> Accessed(Moved(ops[i], self))
    ensures SameOps(ops, UpAt(ops, m, i, self, next))
  {
    if m.waiting != [] {
      UpWaiters(w, m, ops, Moved(ops[i], Done));
    }
  }

  lemma NextSame<T>(s: State<T>, i: nat)
    requires WaitersOk(MutexQ, s.mutex, s.ops) && WaitersOk(EmptyQ, s.nEmpty, s.ops) && WaitersOk(FullQ, s.nFull, s.ops)
    ensures SameOps(s.ops, Next(s, Step(i)).ops)
  {
    hide WaitersOk, Down, Up;
    if i < |s.ops| {
      var op := s.ops[i];
      if op.at.Unlock? {
        UpSame(MutexQ, s.mutex, s.ops, i, Post, Access);
      } else if op.at.Post? {
        UpSame(if op.Put? then FullQ else EmptyQ, if op.Put? then s.nFull else s.nEmpty, s.ops, i, Done, Lock);
      }
    }
  }

  class Buffer<T> {
    const n: nat
    const data: array<T>
    var head: nat
    var tail: nat
    var mutex: Sem<nat>
    var nEmpty: Sem<nat>
    var nFull: Sem<nat>
    var ops: seq<Op<T>>
    var stored: seq<T>  // history: items in the order of their stores
    var taken: seq<T>   // history: items in the order of their reads

    ghost predicate Valid()
      reads this, data
    {
      Ok(n, data[..], head, tail, mutex, nEmpty, nFull, ops, stored, taken)
    }

    ghost function Now(): State<T>
      reads this
    {
      State(mutex, nEmpty, nFull, ops, stored, taken)
    }

    constructor (n: nat, init: T)
      requires n > 0
      ensures Valid() && fresh(data) && this.n == n && Now() == State(Created(1), Created(n), Created(0), [], [], [])
    {
      this.n, head, tail, ops := n, 0, 0, [];
      data := new T[n](_ => init);
      mutex, nEmpty, nFull := Created(1), Created(n), Created(0);
      stored, taken := [], [];
    }

    /** data[tail] = v */
    method Store(i: nat)
      requires Valid() && i < |ops| && ops[i].at.Access? && ops[i].Put?
      modifies this`ops, this`stored, data
      ensures Valid() && stored == old(stored) + [old(ops[i].v)]
      ensures ops == old(ops)[i := Put(old(ops[i].v), Bump, |old(stored)|)]
      ensures Sum(Steps, ops) < old(Sum(Steps, ops))
    {
      hide Ring, Tickets, WaitersOk, Sum, Index, Balanced;
      AccessSafe(n, data[..], head, tail, mutex, nEmpty, nFull, ops, stored, taken, i);
      InBounds(n, data[..], head, tail, ops, stored, taken);
      OnStore(n, data[..], head, tail, mutex, nEmpty, nFull, ops, stored, taken, i);
      var v := ops[i].v;
      data[tail] := v;
      stored := stored + [v];
      ops := ops[i := Put(v, Bump, |stored| - 1)];
    }

    /** v = data[head] */
    method Read(i: nat)
      requires Valid() && i < |ops| && ops[i].at.Access? && ops[i].Get?
      modifies this`ops, this`taken
      ensures Valid() && |taken| == |old(taken)| + 1 && old(taken) <= taken <= stored
      ensures ops == old(ops)[i := Get(Some(taken[|old(taken)|]), Bump, |old(taken)|)]
      ensures Sum(Steps, ops) < old(Sum(Steps, ops))
    {
      hide Ring, Tickets, WaitersOk, Sum, Index, Balanced;
      AccessSafe(n, data[..], head, tail, mutex, nEmpty, nFull, ops, stored, taken, i);
      InBounds(n, data[..], head, tail, ops, stored, taken);
      OnRead(n, data[..], head, tail, mutex, nEmpty, nFull, ops, stored, taken, i);
      var v := data[head];
      taken := taken + [v];
      ops := ops[i := Get(Some(v), Bump, |taken| - 1)];
      Within(n, data[..], head, tail, mutex, nEmpty, nFull, ops, stored, taken);
    }

    /** nEmpty.down() or nFull.down() */
    method TakeSlot(i: nat)
      requires Valid() && i < |ops| && ops[i].at.Slot?
      modifies this`ops, this`nEmpty, this`nFull
      ensures Valid()
      ensures old(ops[i]).Put? ==>
        nFull == old(nFull) && nEmpty == Down(old(nEmpty), i) && ops == DownAt(old(ops), old(nEmpty), i, SlotWait, Lock)
      ensures old(ops[i]).Get? ==>
        nEmpty == old(nEmpty) && nFull == Down(old(nFull), i) && ops == DownAt(old(ops), old(nFull), i, SlotWait, Lock)
      ensures Sum(Steps, ops) < old(Sum(Steps, ops))
    {
      hide Ring, Tickets, WaitersOk, Sum, Index, Balanced;
      OnSlot(n, data[..], head, tail, mutex, nEmpty, nFull, ops, stored, taken, i);
      if ops[i].Put? {
        ops, nEmpty := DownAt(ops, nEmpty, i, SlotWait, Lock), Down(nEmpty, i);
      } else {
        ops, nFull := DownAt(ops, nFull, i, SlotWait, Lock), Down(nFull, i);
      }
    }

    /** mutex.lock() */
    method TakeLock(i: nat)
      requires Valid() && i < |ops| && ops[i].at.Lock?
      modifies this`ops, this`mutex
      ensures Valid()
      ensures mutex == Down(old(mutex), i) && ops == DownAt(old(ops), old(mutex), i, LockWait, Access)
      ensures Sum(Steps, ops) < old(Sum(Steps, ops))
    {
      hide Ring, Tickets, WaitersOk, Sum, Index, Balanced;
      OnLock(n, data[..], head, tail, mutex, nEmpty, nFull, ops, stored, taken, i);
      ops, mutex := DownAt(ops, mutex, i, LockWait, Access), Down(mutex, i);
    }

    /** head = (head + 1) % N, or the same for tail */
    method Advance(i: nat)
      requires Valid() && i < |ops| && ops[i].at.Bump?
      modifies this`ops, this`head, this`tail
      ensures Valid()
      ensures tail == (if old(ops[i]).Put? then (old(tail) + 1) % n else old(tail))
      ensures head == (if old(ops[i]).Get? then (old(head) + 1) % n else old(head))
      ensures ops == old(ops)[i := Moved(old(ops)[i], Unlock)]
      ensures Sum(Steps, ops) < old(Sum(Steps, ops))
    {
      hide Ring, Tickets, WaitersOk, Sum, Index, Balanced;
      OnBump(n, data[..], head, tail, mutex, nEmpty, nFull, ops, stored, taken, i);
      if ops[i].Put? {
        tail := (tail + 1) % n;
      } else {
        head := (head + 1) % n;
      }
      ops := ops[i := Moved(ops[i], Unlock)];
    }

    /** mutex.unlock() */
    method ReleaseLock(i: nat)
      requires Valid() && i < |ops| && ops[i].at.Unlock?
      modifies this`ops, this`mutex
      ensures Valid()
      ensures mutex == Up(old(mutex)) && ops == UpAt(old(ops), old(mutex), i, Post, Access)
      ensures Sum(Steps, ops) < old(Sum(Steps, ops))
    {
      hide Ring, Tickets, WaitersOk, Sum, Index, Balanced;
      OnUnlock(n, data[..], head, tail, mutex, nEmpty, nFull, ops, stored, taken, i);
      ops, mutex := UpAt(ops, mutex, i, Post, Access), Up(mutex);
    }

    /** nFull.up() or nEmpty.up() */
    method GiveSlot(i: nat)
      requires Valid() && i < |ops| && ops[i].at.Post?
      modifies this`ops, this`nEmpty, this`nFull
      ensures Valid()
      ensures old(ops[i]).Put? ==>
        nEmpty == old(nEmpty) && nFull == Up(old(nFull)) && ops == UpAt(old(ops), old(nFull), i, Done, Lock)
      ensures old(ops[i]).Get? ==>
        nFull == old(nFull) && nEmpty == Up(old(nEmpty)) && ops == UpAt(old(ops), old(nEmpty), i, Done, Lock)
      ensures Sum(Steps, ops) < old(Sum(Steps, ops))
    {
      hide Ring, Tickets, WaitersOk, Sum, Index, Balanced;
      OnPost(n, data[..], head, tail, mutex, nEmpty, nFull, ops, stored, taken, i);
      if ops[i].Put? {
        ops, nFull := UpAt(ops, nFull, i, Done, Lock), Up(nFull);
      } else {
        ops, nEmpty := UpAt(ops, nEmpty, i, Done, Lock), Up(nEmpty);
      }
    }

    method Begin(op: Op<T>)
      requires Valid() && op.at.Slot?
      modifies this`ops
      ensures Valid() && ops == old(ops) + [op]
    {
      hide Ring, Tickets, WaitersOk, Sum, Index, Balanced;
      OnBegin(n, data[..], head, tail, mutex, nEmpty, nFull, ops, stored, taken, op);
      ops := ops + [op];
    }

    /** The ring does what the list of items does. */
    method Perform(m: Move<T>)
      requires Valid()
      modifies this`head, this`tail, this`mutex, this`nEmpty, this`nFull, this`ops, this`stored, this`taken, data
      ensures Valid() && Now() == Next(old(Now()), m)
      ensures old(stored) <= stored && old(taken) <= taken
      ensures m.Step? && m.i < |ops| && !Blocked(old(ops)[m.i]) ==> Sum(Steps, ops) < old(Sum(Steps, ops))
    {
      hide Valid, Sum, Down, Up, UpAt, DownAt;
      match m
      case NewPut(v) => Begin(Put(v, Slot, 0));
      case NewGet => Begin(Get(None, Slot, 0));
      case Step(i) =>
        if i < |ops| {
          match ops[i].at
          case Slot => TakeSlot(i);
          case Lock => TakeLock(i);
          case Access => if ops[i].Put? { Store(i); } else { Read(i); }
          case Bump => Advance(i);
          case Unlock => ReleaseLock(i);
          case Post => GiveSlot(i);
          case _ =>
        }
    }

    /**
      Any schedule of any callers does to the ring what it does to the list of items; what is read
      is always a prefix of what was stored, at most n behind; and free slots, slots in the hands
      of calls, and items add up to n.
    */
    method Run(schedule: seq<Move<T>>)
      requires Valid()
      modifies this`head, this`tail, this`mutex, this`nEmpty, this`nFull, this`ops, this`stored, this`taken, data
      ensures Valid() && Now() == Runs(old(Now()), schedule)
      ensures old(stored) <= stored && old(taken) <= taken
      ensures taken <= stored && |stored| - |taken| <= n
      ensures nEmpty.count + Sum(Empties, ops) + (|stored| - |taken|) == n
      ensures nFull.count + Sum(Fulls, ops) == |stored| - |taken| && mutex.count + Sum(Inside, ops) == 1
    {
      hide Ring, Tickets, WaitersOk, Sum, Index, Next;
      for k := 0 to |schedule|
        invariant Valid() && Now() == Runs(old(Now()), schedule[..k])
        invariant old(stored) <= stored && old(taken) <= taken
      {
        Perform(schedule[k]);
        RunsSnoc(old(Now()), schedule[..k], schedule[k]);
        assert schedule[..k] + [schedule[k]] == schedule[..k + 1];
      }
      assert schedule[..|schedule|] == schedule;
      Within(n, data[..], head, tail, mutex, nEmpty, nFull, ops, stored, taken);
    }

    /**
      Let the calls take their steps in any order: after finitely many steps, `moves`, none can
      move, and then what waits is gets on an empty buffer or puts on a full one.
    */
    method Settle() returns (ghost moves: seq<Move<T>>)
      requires Valid()
      modifies this`head, this`tail, this`mutex, this`nEmpty, this`nFull, this`ops, this`stored, this`taken, data
      ensures Valid() && SameOps(old(ops), ops)
      ensures Now() == Runs(old(Now()), moves) && forall k :: 0 <= k < |moves| ==> moves[k].Step?
      ensures forall i :: 0 <= i < |ops| ==> ops[i].at.Done? || ops[i].at.SlotWait?
      ensures |stored| > |taken| ==> forall i :: 0 <= i < |ops| && ops[i].Get? ==> ops[i].at.Done?
      ensures |stored| - |taken| < n ==> forall i :: 0 <= i < |ops| && ops[i].Put? ==> ops[i].at.Done?
    {
      hide Ring, Tickets, WaitersOk, Sum, Index, Balanced, Next, SameOp;
      moves := [];
      SelfSame(ops);
      while exists i :: 0 <= i < |ops| && !Blocked(ops[i])
        invariant Valid() && SameOps(old(ops), ops)
        invariant Now() == Runs(old(Now()), moves) && forall k :: 0 <= k < |moves| ==> moves[k].Step?
        decreases Sum(Steps, ops)
      {
        var i :| 0 <= i < |ops| && !Blocked(ops[i]);
        ghost var ops0 := ops;
        NextSame(Now(), i);
        Perform(Step(i));
        SameTwice(old(ops), ops0, ops);
        RunsSnoc(old(Now()), moves, Step(i));
        moves := moves + [Step(i)];
      }
      Stuck(n, data[..], head, tail, mutex, nEmpty, nFull, ops, stored, taken);
    }

    lemma SelfSame(ops: seq<Op<T>>)
      ensures SameOps(ops, ops)
    {
    }

    lemma SameTwice(ops: seq<Op<T>>, ops': seq<Op<T>>, ops'': seq<Op<T>>)
      requires SameOps(ops, ops') && SameOps(ops', ops'')
      ensures SameOps(ops, ops'')
    {
      forall i | 0 <= i < |ops| ensures SameOp(ops[i], ops''[i]) {
        assert SameOp(ops[i], ops'[i]) && SameOp(ops'[i], ops''[i]);
      }
    }

    lemma Within(n: nat, data: seq<T>, head: nat, tail: nat, mutex: Sem<nat>, nEmpty: Sem<nat>, nFull: Sem<nat>,
                 ops: seq<Op<T>>, stored: seq<T>, taken: seq<T>)
      requires Ok(n, data, head, tail, mutex, nEmpty, nFull, ops, stored, taken)
      ensures taken <= stored && |stored| - |taken| <= n
    {
      hide Index, Tickets, WaitersOk, Sum;
    }

    lemma InBounds(n: nat, data: seq<T>, head: nat, tail: nat, ops: seq<Op<T>>, stored: seq<T>, taken: seq<T>)
      requires Ring(n, data, head, tail, ops, stored, taken)
      ensures n > 0 && |data| == n && head < n && tail < n
    {
    }
  }
}
