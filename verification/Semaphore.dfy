/** The class of kernel/semaphore.cc, over the intrusive queue, and the mutex of kernel/mutex.h. */
module SemaphoreClass {
  import opened Queues
  import opened Semaphores

  class Semaphore {
    var count: nat
    const waiting: Queue
    ghost var log: Sem<Thread>

    ghost predicate Valid()
      reads this, waiting, waiting.contents
    {
      && waiting.Valid() && SemOk(log)
      && log.count == count && log.waiting == waiting.contents
    }

    constructor (n: nat)
      ensures Valid() && fresh(waiting) && log == Created(n)
    {
      count := n;
      waiting := new Queue();
      log := Created(n);
    }

    /** Under the lock; the caller goes on to `block` when it has to wait. */
    method Down(me: Thread) returns (blocked: bool)
      requires Valid() && me !in waiting.contents
      modifies this`count, this`log, waiting, me, waiting.Tail()
      ensures Valid() && log == Semaphores.Down(old(log), me) && blocked == Waits(old(log))
    {
      SemKeeps(log, me);
      blocked := count == 0;
      log := Semaphores.Down(log, me);
      if count == 0 {
        waiting.Add(me);
      } else {
        count := count - 1;
      }
    }

    /** Under the lock; the caller goes on to schedule the thread returned, if any. */
    method Up() returns (t: Thread?)
      requires Valid()
      modifies this`count, this`log, waiting
      ensures Valid() && log == Semaphores.Up(old(log))
      ensures t == (if Woken(old(log)).Some? then Woken(old(log)).value else null)
    {
      if waiting.contents != [] {
        SemKeeps(log, waiting.contents[0]);
      }
      log := Semaphores.Up(log);
      t := waiting.Remove();
      if t == null {
        count := count + 1;
      }
    }
  }
}
