/**
  Semaphores of kernel/semaphore.cc: what up and down do to the count and the queue of waiters,
  with the history that the accounting is about.
*/
module Semaphores {
  import opened Options

  /**
    `passed` counts the downs that found count above 0; `arrived` lists those that had to wait
    and `served` those that an up released, both in order.
  */
  datatype Sem<T> = Sem(count: nat, waiting: seq<T>, init: nat, ups: nat, passed: nat, arrived: seq<T>, served: seq<T>)

  function Created<T>(n: nat): Sem<T> { Sem(n, [], n, 0, 0, [], []) }

  predicate Waits<T>(m: Sem<T>) { m.count == 0 }

  /** down by `me` */
  function Down<T>(m: Sem<T>, me: T): Sem<T> {
    if Waits(m) then m.(waiting := m.waiting + [me], arrived := m.arrived + [me])
    else m.(count := m.count - 1, passed := m.passed + 1)
  }

  /** The waiter that the next up hands its turn to. */
  function Woken<T>(m: Sem<T>): Option<T> {
    if m.waiting == [] then None else Some(m.waiting[0])
  }

  function Up<T>(m: Sem<T>): Sem<T> {
    if m.waiting == [] then m.(count := m.count + 1, ups := m.ups + 1)
    else m.(waiting := m.waiting[1..], ups := m.ups + 1, served := m.served + [m.waiting[0]])
  }

  /** count + downs granted = initial value + ups; waiters only at count 0; release in arrival order. */
  ghost predicate SemOk<T>(m: Sem<T>) {
    && (m.count > 0 ==> m.waiting == [])
    && m.count + m.passed + |m.served| == m.init + m.ups
    && m.arrived == m.served + m.waiting
  }

  lemma SemKeeps<T>(m: Sem<T>, me: T)
    requires SemOk(m)
    ensures SemOk(Down(m, me)) && SemOk(Up(m))
  {
    if m.waiting != [] {
      assert m.served + m.waiting == (m.served + [m.waiting[0]]) + m.waiting[1..];
    }
  }

  /** What a semaphore goes through. */
  datatype Call<T> = DownBy(me: T) | UpCall

  function After<T>(m: Sem<T>, calls: seq<Call<T>>): Sem<T>
    decreases |calls|
  {
    if calls == [] then m
    else
      var m' := After(m, calls[..|calls| - 1]);
      match calls[|calls| - 1]
      case DownBy(me) => Down(m', me)
      case UpCall => Up(m')
  }

  function Downs<T(==)>(calls: seq<Call<T>>): nat
    decreases |calls|
  {
    if calls == [] then 0 else Downs(calls[..|calls| - 1]) + (if calls[|calls| - 1].DownBy? then 1 else 0)
  }

  /**
    In every run: the downs that are through are exactly as many as the initial value and the
    ups allow, and no more than were asked for; the others wait in the order they came.
  */
  lemma {:induction false} Accounting<T>(n: nat, calls: seq<Call<T>>)
    ensures var m := After(Created(n), calls);
      var ups, granted := |calls| - Downs(calls), m.passed + |m.served|;
      && SemOk(m) && m.init == n && m.ups == ups
      && granted == (if Downs(calls) <= n + ups then Downs(calls) else n + ups)
      && |m.waiting| == Downs(calls) - granted
    decreases |calls|
  {
    if calls != [] {
      var front, last := calls[..|calls| - 1], calls[|calls| - 1];
      Accounting(n, front);
      var m := After(Created(n), front);
      if last.DownBy? {
        SemKeeps(m, last.me);
      } else if m.waiting != [] {
        SemKeeps(m, m.waiting[0]);
      }
    }
  }

  // ---- a semaphore that numbered calls wait for

  /** The queue is exactly the calls that wait, and only when count is 0. */
  ghost predicate Waiters(m: Sem<nat>, waits: seq<bool>) {
    && (m.count > 0 ==> m.waiting == [])
    && (forall k, l :: 0 <= k < l < |m.waiting| ==> m.waiting[k] != m.waiting[l])
    && (forall k :: 0 <= k < |m.waiting| ==> m.waiting[k] < |waits| && waits[m.waiting[k]])
    && (forall i :: 0 <= i < |waits| && waits[i] ==> i in m.waiting)
  }

  lemma WaitersDown(m: Sem<nat>, waits: seq<bool>, i: nat)
    requires Waiters(m, waits) && i < |waits| && !waits[i]
    ensures Waiters(Down(m, i), waits[i := Waits(m)])
  {
    var q := Down(m, i).waiting;
    forall j | 0 <= j < |waits| && waits[i := Waits(m)][j] ensures j in q {
      if j != i { assert j in m.waiting; }
    }
  }

  lemma WaitersUp(m: Sem<nat>, waits: seq<bool>)
    requires Waiters(m, waits) && m.waiting != []
    ensures m.waiting[0] < |waits| && waits[m.waiting[0]] && Waiters(Up(m), waits[m.waiting[0] := false])
  {
    var j0 := m.waiting[0];
    forall j | 0 <= j < |waits| && waits[j0 := false][j] ensures j in Up(m).waiting {
      assert j in m.waiting && j != j0;
    }
  }

  lemma WaitersAppend(m: Sem<nat>, waits: seq<bool>)
    requires Waiters(m, waits)
    ensures Waiters(m, waits + [false])
  {
  }
}
