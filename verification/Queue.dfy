/**
  The intrusive FIFO of kernel/queue.h: threads linked through their own `next` field, which is
  why a thread may be in one queue at a time.
*/
module Queues {
  class Thread {
    var next: Thread?

    constructor ()
      ensures next == null
    {
      next := null;
    }
  }

  class Queue {
    var first: Thread?
    var last: Thread?
    ghost var contents: seq<Thread>

    ghost predicate Valid()
      reads this, contents
    {
      && (forall i, j :: 0 <= i < j < |contents| ==> contents[i] != contents[j])
      && (forall i :: 0 <= i < |contents| - 1 ==> contents[i].next == contents[i + 1])
      && first == (if contents == [] then null else contents[0])
      && (contents == [] ==> last == null)
      && (contents != [] ==> last == contents[|contents| - 1] && contents[|contents| - 1].next == null)
    }

    /** The threads whose `next` an add may write beside the new one's. */
    ghost function Tail(): set<Thread>
      reads this
    {
      if last == null then {} else {last}
    }

    constructor ()
      ensures Valid() && contents == []
    {
      first, last := null, null;
      contents := [];
    }

    method Add(t: Thread)
      requires Valid() && t !in contents
      modifies this, t, Tail()
      ensures Valid() && contents == old(contents) + [t]
    {
      t.next := null;
      if first == null {
        first := t;
      } else {
        last.next := t;
      }
      last := t;
      contents := contents + [t];
    }

    method AddFront(t: Thread)
      requires Valid() && t !in contents
      modifies this, t
      ensures Valid() && contents == [t] + old(contents)
    {
      t.next := first;
      first := t;
      if last == null {
        last := first;
      }
      contents := [t] + contents;
    }

    /** null when the queue is empty; the thread's own `next` keeps its old value. */
    method Remove() returns (t: Thread?)
      requires Valid()
      modifies this
      ensures Valid()
      ensures old(contents) == [] ==> t == null && contents == []
      ensures old(contents) != [] ==> t == old(contents)[0] && contents == old(contents)[1..]
    {
      if first == null {
        return null;
      }
      t := first;
      first := t.next;
      if first == null {
        last := null;
      }
      contents := contents[1..];
    }
  }

  /** A thread goes from one queue to another, as a waiter that `up` schedules does. */
  method Transfer(from: Queue, to: Queue) returns (t: Thread?)
    requires from.Valid() && to.Valid() && from != to
    requires forall u :: u in from.contents ==> u !in to.contents
    modifies from, to, from.contents, to.Tail()
    ensures from.Valid() && to.Valid()
    ensures forall u :: u in from.contents ==> u !in to.contents
    ensures old(from.contents) == [] ==> t == null && from.contents == [] && to.contents == old(to.contents)
    ensures old(from.contents) != [] ==>
      t == old(from.contents)[0] && from.contents == old(from.contents)[1..] && to.contents == old(to.contents) + [t]
  {
    t := from.Remove();
    if t != null {
      forall i | 0 <= i < |from.contents| ensures from.contents[i] != t && from.contents[i] != to.last {
        assert from.contents[i] == old(from.contents)[i + 1];
        assert from.contents[i] in old(from.contents);
      }
      to.Add(t);
    }
  }

  /** Why a thread may not be in two queues: adding to one then breaks the other. */
  method Entangle() returns (q: Queue, r: Queue)
    ensures r.Valid() && !q.Valid() && exists t :: t in q.contents && t in r.contents
  {
    var t := new Thread();
    var u := new Thread();
    q := new Queue();
    r := new Queue();
    q.Add(t);
    r.Add(t);
    r.Add(u);
    assert q.contents == [t] && t.next == u;
    assert t in q.contents && r.contents == [t, u];
  }
}
