/**
  The thread hand-off protocol of kernel/threads.cc, kernel/context.s and kernel/semaphore.cc as
  a machine of atomic steps over any number of CPUs.  A step is one access to shared state: a
  queue operation, one read or write of leaveMeAlone or activeThreads, the register save, the
  stack switch.  A timer interrupt may push a call of yield on the running stack between any two.
*/
module Scheduler {
  import opened Options
  import opened Semaphores

  type Tid = nat

  /** Where a call stands; `me` and the other threads are the values of the routine's locals. */
  datatype Frame =
    | Run                                // the thread's own code, at the bottom of its stack
    | YieldRead                          // yield: about to read activeThreads
    | YieldCheck(me: Tid)                // about to test me's flag
    | YieldSet(me: Tid)                  // about to set it
    | YieldAdd(me: Tid)                  // about to queue me
    | StopSet(me: Tid)                   // stop: about to set me's flag
    | StopAdd(me: Tid)                   // about to queue me as a zombie
    | Block(me: Tid)                     // block: about to take a thread from the ready queue
    | Got(me: Tid, it: Tid)              // about to look at the thread taken
    | Requeue(me: Tid, it: Tid)          // its flag was set
    | Claim(me: Tid, it: Tid)            // its flag was clear
    | Activate(me: Tid, it: Tid)         // its flag is ours, about to write activeThreads
    | Save(me: Tid, it: Tid)             // contextSwitch: about to save me's registers
    | Jump(me: Tid, it: Tid)             // about to load the stack pointer of it
    | Parked                             // the saved context
    | Land(prev: Tid, me: Tid)           // on the new stack, about to clear prev's flag
    | Landed(me: Tid)                    // about to clear the flag of the thread resumed
    | Give(it: Tid)                      // about to schedule a thread that was woken or created
    | Reap(alone: Option<Tid>)           // reaper: about to take a zombie
    | ReapGot(it: Tid, alone: Option<Tid>)
    | ReapBack(it: Tid, alone: Option<Tid>)
    | ReapFree(it: Tid, alone: Option<Tid>)

  datatype State = State(
    cur: seq<Tid>,             // per CPU: whose stack it executes on
    active: seq<Tid>,          // activeThreads
    stack: seq<seq<Frame>>,    // per thread
    flag: seq<bool>,           // leaveMeAlone
    saved: seq<bool>,          // the register area holds the context to resume
    deleted: seq<bool>,
    dropped: seq<bool>,        // history: zombies that the reaper met twice and gave up on
    ready: seq<Tid>,
    zombies: seq<Tid>,
    sems: seq<Sem<Tid>>)

  /** What the thread's own code does next, when it is its turn. */
  datatype Act = Yield | Stop | Await(s: nat) | Signal(s: nat) | Reaper | Spawn

  /** CPU c takes an interrupt or executes its next step. */
  datatype Move = Interrupt(c: nat) | Step(c: nat, act: Act)

  // ---- the steps

  function Names(f: Frame): seq<Tid> {
    match f
    case YieldCheck(me) => [me]
    case YieldSet(me) => [me]
    case YieldAdd(me) => [me]
    case StopSet(me) => [me]
    case StopAdd(me) => [me]
    case Block(me) => [me]
    case Got(me, it) => [me, it]
    case Requeue(me, it) => [me, it]
    case Claim(me, it) => [me, it]
    case Activate(me, it) => [me, it]
    case Save(me, it) => [me, it]
    case Jump(me, it) => [me, it]
    case Land(prev, me) => [prev, me]
    case Landed(me) => [me]
    case Give(it) => [it]
    case ReapGot(it, _) => [it]
    case ReapBack(it, _) => [it]
    case ReapFree(it, _) => [it]
    case _ => []
  }

  // Threads are numbered in order of creation; the invariant shows that every number in use is one.

  function Put<T>(q: seq<T>, t: nat, v: T): seq<T> { if t < |q| then q[t := v] else q }

  predicate IsSet(flag: seq<bool>, t: Tid) { t < |flag| && flag[t] }

  function StackOf(stack: seq<seq<Frame>>, h: Tid): seq<Frame> { if h < |stack| then stack[h] else [] }

  function Last(fr: seq<Frame>): Frame { if fr == [] then Parked else fr[|fr| - 1] }

  function Popped(fr: seq<Frame>): seq<Frame> { if fr == [] then fr else fr[..|fr| - 1] }

  function Push(stack: seq<seq<Frame>>, h: Tid, f: Frame): seq<seq<Frame>> {
    Put(stack, h, StackOf(stack, h) + [f])
  }

  function Pop(stack: seq<seq<Frame>>, h: Tid): seq<seq<Frame>> {
    Put(stack, h, Popped(StackOf(stack, h)))
  }

  function SetTop(stack: seq<seq<Frame>>, h: Tid, f: Frame): seq<seq<Frame>> {
    Put(stack, h, Popped(StackOf(stack, h)) + [f])
  }

  function Top(s: State, c: nat): Frame
    requires c < |s.cur|
  {
    Last(StackOf(s.stack, s.cur[c]))
  }

  /** One step of CPU c; `act` chooses what thread code does when it is at the top. */
  function Next(s: State, m: Move): State
  {
    if m.c >= |s.cur| || m.c >= |s.active| then s
    else if m.Interrupt? then s.(stack := Push(s.stack, s.cur[m.c], YieldRead))
    else if Top(s, m.c).Run? then Start(s, m.c, m.act)
    else Continue(s, m.c, Top(s, m.c))
  }

  /** Thread code calls into the scheduler. */
  function Start(s: State, c: nat, act: Act): State
    requires c < |s.cur| && c < |s.active|
  {
    var h := s.cur[c];
    match act
    case Yield => s.(stack := Push(s.stack, h, YieldRead))
    case Stop => s.(stack := Push(s.stack, h, StopSet(s.active[c])))
    case Reaper => s.(stack := Push(s.stack, h, Reap(None)))
    case Spawn =>
      s.(stack := Push(s.stack, h, Give(|s.stack|)) + [[Run, Parked]],
         flag := s.flag + [false], saved := s.saved + [true],
         deleted := s.deleted + [false], dropped := s.dropped + [false])
    case Await(k) =>
      if k >= |s.sems| then s
      else
        var me := s.active[c];
        var s1 := s.(sems := s.sems[k := Down(s.sems[k], me)]);
        if Waits(s.sems[k]) then s1.(flag := Put(s.flag, me, true), stack := Push(s.stack, h, Block(me)))
        else s1
    case Signal(k) =>
      if k >= |s.sems| then s
      else
        var s1 := s.(sems := s.sems[k := Up(s.sems[k])]);
        if Woken(s.sems[k]).Some? then s1.(stack := Push(s.stack, h, Give(Woken(s.sems[k]).value)))
        else s1
  }

  /** The next step of a scheduler routine. */
  function Continue(s: State, c: nat, f: Frame): State
    requires c < |s.cur| && c < |s.active|
  {
    var h := s.cur[c];
    match f
    case Run => s
    case Parked => s
    case YieldRead => s.(stack := SetTop(s.stack, h, YieldCheck(s.active[c])))
    case YieldCheck(me) =>
      if IsSet(s.flag, me) then s.(stack := Pop(s.stack, h)) else s.(stack := SetTop(s.stack, h, YieldSet(me)))
    case YieldSet(me) =>
      s.(flag := Put(s.flag, me, true), stack := SetTop(s.stack, h, YieldAdd(me)))
    case YieldAdd(me) => s.(ready := s.ready + [me], stack := SetTop(s.stack, h, Block(me)))
    case StopSet(me) =>
      s.(flag := Put(s.flag, me, true), stack := SetTop(s.stack, h, StopAdd(me)))
    case StopAdd(me) => s.(zombies := s.zombies + [me], stack := SetTop(s.stack, h, Block(me)))
    case Block(me) =>
      if s.ready == [] then s
      else s.(ready := s.ready[1..], stack := SetTop(s.stack, h, Got(me, s.ready[0])))
    case Got(me, it) =>
      if it == me then s.(flag := Put(s.flag, me, false), stack := Pop(s.stack, h))
      else s.(stack := SetTop(s.stack, h, if IsSet(s.flag, it) then Requeue(me, it) else Claim(me, it)))
    case Requeue(me, it) => s.(ready := s.ready + [it], stack := SetTop(s.stack, h, Block(me)))
    case Claim(me, it) =>
      s.(flag := Put(s.flag, it, true), stack := SetTop(s.stack, h, Activate(me, it)))
    case Activate(me, it) => s.(active := s.active[c := it], stack := SetTop(s.stack, h, Save(me, it)))
    case Save(me, it) =>
      s.(saved := Put(s.saved, me, true), stack := SetTop(s.stack, h, Jump(me, it)))
    case Jump(me, it) =>
      s.(cur := s.cur[c := it],
         saved := Put(s.saved, it, false),
         stack := SetTop(SetTop(s.stack, h, Parked), it, Land(me, it)))
    case Land(prev, me) =>
      s.(flag := Put(s.flag, prev, false), stack := SetTop(s.stack, h, Landed(me)))
    case Landed(me) =>
      s.(flag := Put(s.flag, me, false), stack := Pop(s.stack, h))
    case Give(it) => s.(ready := s.ready + [it], stack := Pop(s.stack, h))
    case Reap(alone) =>
      if s.zombies == [] then s.(stack := Pop(s.stack, h))
      else s.(zombies := s.zombies[1..], stack := SetTop(s.stack, h, ReapGot(s.zombies[0], alone)))
    case ReapGot(it, alone) =>
      if !IsSet(s.flag, it) then s.(stack := SetTop(s.stack, h, ReapFree(it, alone)))
      else if alone == Some(it) then s.(dropped := Put(s.dropped, it, true), stack := Pop(s.stack, h))
      else s.(stack := SetTop(s.stack, h, ReapBack(it, if alone.None? then Some(it) else alone)))
    case ReapBack(it, alone) => s.(zombies := s.zombies + [it], stack := SetTop(s.stack, h, Reap(alone)))
    case ReapFree(it, alone) =>
      s.(deleted := Put(s.deleted, it, true), stack := SetTop(s.stack, h, Reap(alone)))
  }
}
