/**
  What each routine of the scheduler achieves: where a CPU gets when it runs one to its end and
  nothing else moves in between, from every state that can be reached with the CPU in thread code.
*/
module SchedulerTurns {
  import opened Options
  import opened Scheduler
  import opened SchedulerProof
  import opened SchedulerSafety
  import opened Semaphores

  /** CPU c takes n steps; `act` is what the thread does if it is its turn. */
  function Steps(s: State, c: nat, act: Act, n: nat): State
    decreases n
  {
    if n == 0 then s else Steps(Next(s, Step(c, act)), c, act, n - 1)
  }

  lemma {:induction false} StepsAdd(s: State, c: nat, act: Act, n: nat, m: nat)
    ensures Steps(s, c, act, n + m) == Steps(Steps(s, c, act, n), c, act, m)
    decreases n
  {
    hide Next;
    if n > 0 {
      StepsAdd(Next(s, Step(c, act)), c, act, n - 1, m);
    }
  }

  // ---- where routines start

  /** CPU c executes thread me, which is in its own code. */
  ghost predicate InCode(s: State, c: nat, me: Tid) {
    && c < |s.cur| == |s.active| && s.cur[c] == me == s.active[c] && Sized(s)
    && me < |s.stack| && s.stack[me] == [Run] && !s.flag[me] && me !in s.ready
  }

  predicate Sized(s: State) { |s.flag| == |s.saved| == |s.deleted| == |s.dropped| == |s.stack| }

  /** Thread it is switched out, with its flag down. */
  ghost predicate SwitchedOut(s: State, it: Tid) {
    Sized(s) && it < |s.stack| && s.stack[it] != [] && Last(s.stack[it]) == Parked && !s.flag[it]
  }

  lemma AtCode(cpus: nat, counts: seq<nat>, moves: seq<Move>, s: State, c: nat)
    requires s == Runs(Boot(cpus, counts), moves) && c < |s.cur| && Top(s, c) == Run
    ensures InCode(s, c, s.cur[c])
    ensures forall n :: 0 <= n < |s.ready| && !IsSet(s.flag, s.ready[n]) ==> SwitchedOut(s, s.ready[n])
  {
    hide Runs, Boot;
    var x := RunsInv(cpus, counts, moves);
    InvCode(s, x, c);
  }

  lemma InvCode(s: State, x: Shadow, c: nat)
    requires Inv(s, x) && c < |s.cur| && Top(s, c) == Run
    ensures InCode(s, c, s.cur[c])
    ensures forall n :: 0 <= n < |s.ready| && !IsSet(s.flag, s.ready[n]) ==> SwitchedOut(s, s.ready[n])
  {
    hide Hands, Clears, SemsOk, Accounts, Cpus, Parks, Saves, Pins, Acts, Dead, Runs, Boot;
    Facts(s, x, c);
    forall n | 0 <= n < |s.ready| && !IsSet(s.flag, s.ready[n]) ensures SwitchedOut(s, s.ready[n]) {
      assert x.loc[s.ready[n]] == OnReady && x.mark[s.ready[n]] == Parked;
      ParkedTop(s, x, s.ready[n]);
    }
  }

  /** The first n threads of the ready queue have their flags up; there are more, and the next has its flag down. */
  ghost predicate FirstFree(s: State, n: nat) {
    && n < |s.ready| && !IsSet(s.flag, s.ready[n])
    && forall i :: 0 <= i < n ==> IsSet(s.flag, s.ready[i])
  }

  // ---- single steps

  /** The state with frame f on top of base on the stack of thread t. */
  function On(s: State, t: Tid, base: seq<Frame>, f: Frame): State
    requires t < |s.stack|
  {
    s.(stack := s.stack[t := base + [f]])
  }

  // ---- block

  /** CPU c is about to take a thread from the ready queue, whose head is `it`. */
  ghost predicate Taking(s: State, c: nat, me: Tid, base: seq<Frame>, it: Tid) {
    && c < |s.cur| == |s.active| && s.cur[c] == me && Sized(s) && me < |s.stack|
    && s.stack[me] == base + [Block(me)] && |s.ready| > 0 && s.ready[0] == it
  }

  /** The state in which c executes `it`, and me is parked on top of base. */
  function Switched(s: State, c: nat, me: Tid, base: seq<Frame>, it: Tid): State
    requires c < |s.cur| == |s.active| && |s.ready| > 0 && Sized(s) && me < |s.stack| && it < |s.stack|
  {
    s.(cur := s.cur[c := it], active := s.active[c := it], ready := s.ready[1..],
       stack := s.stack[me := base + [Parked]][it := Popped(s.stack[it])],
       flag := s.flag[me := false], saved := s.saved[me := true][it := false])
  }

  /** block, to a thread that is switched out: the flags go down only behind the switch. */
  lemma Switches(s: State, c: nat, me: Tid, base: seq<Frame>, it: Tid, act: Act)
    requires Taking(s, c, me, base, it) && SwitchedOut(s, it) && it != me
    ensures Steps(s, c, act, 8) == Switched(s, c, me, base, it)
  {
    hide Next, Steps;
    var s3 := Claims(s, c, me, base, it, act);
    var s5 := Leaves(s3, c, me, base, it, act);
    var s8 := Jumps(s5, c, me, base, it, act);
    StepsAdd(s, c, act, 3, 2);
    StepsAdd(s, c, act, 5, 3);
    assert s8 == Switched(s, c, me, base, it);
  }

  lemma Claims(s: State, c: nat, me: Tid, base: seq<Frame>, it: Tid, act: Act) returns (s3: State)
    requires Taking(s, c, me, base, it) && SwitchedOut(s, it) && it != me
    ensures s3 == On(s.(ready := s.ready[1..], flag := s.flag[it := true]), me, base, Activate(me, it))
    ensures s3 == Steps(s, c, act, 3)
  {
    var s1 := On(s.(ready := s.ready[1..]), me, base, Got(me, it));
    assert Next(s, Step(c, act)) == s1;
    var s2 := On(s1, me, base, Claim(me, it));
    assert Next(s1, Step(c, act)) == s2;
    s3 := On(s.(ready := s.ready[1..], flag := s.flag[it := true]), me, base, Activate(me, it));
    assert Next(s2, Step(c, act)) == s3;
    assert Steps(s, c, act, 3) == Steps(s1, c, act, 2) == Steps(s2, c, act, 1);
  }

  lemma Leaves(s3: State, c: nat, me: Tid, base: seq<Frame>, it: Tid, act: Act) returns (s5: State)
    requires c < |s3.cur| == |s3.active| && s3.cur[c] == me && Sized(s3) && me < |s3.stack|
    requires s3.stack[me] == base + [Activate(me, it)]
    ensures s5 == On(s3.(active := s3.active[c := it], saved := s3.saved[me := true]), me, base, Jump(me, it))
    ensures s5 == Steps(s3, c, act, 2)
  {
    var s4 := On(s3.(active := s3.active[c := it]), me, base, Save(me, it));
    assert Next(s3, Step(c, act)) == s4;
    s5 := On(s3.(active := s3.active[c := it], saved := s3.saved[me := true]), me, base, Jump(me, it));
    assert Next(s4, Step(c, act)) == s5;
    assert Steps(s3, c, act, 2) == Steps(s4, c, act, 1);
  }

  lemma Jumps(s5: State, c: nat, me: Tid, base: seq<Frame>, it: Tid, act: Act) returns (s8: State)
    requires c < |s5.cur| == |s5.active| && s5.cur[c] == me && Sized(s5) && me < |s5.stack| && it < |s5.stack|
    requires s5.stack[me] == base + [Jump(me, it)] && it != me && s5.stack[it] != []
    ensures s8 == Steps(s5, c, act, 3)
    ensures s8 == s5.(cur := s5.cur[c := it], saved := s5.saved[it := false], flag := s5.flag[me := false][it := false],
                      stack := s5.stack[me := base + [Parked]][it := Popped(s5.stack[it])])
  {
    var rest := Popped(s5.stack[it]);
    var s6 := s5.(cur := s5.cur[c := it], saved := s5.saved[it := false],
                  stack := s5.stack[me := base + [Parked]][it := rest + [Land(me, it)]]);
    assert Next(s5, Step(c, act)) == s6;
    var s7 := s6.(flag := s6.flag[me := false], stack := s6.stack[it := rest + [Landed(it)]]);
    assert Next(s6, Step(c, act)) == s7;
    s8 := s7.(flag := s7.flag[it := false], stack := s7.stack[it := rest]);
    assert Next(s7, Step(c, act)) == s8;
  }

  /** block, when the head of the ready queue has its flag up: it goes to the back. */
  lemma Defers(s: State, c: nat, me: Tid, base: seq<Frame>, it: Tid, act: Act)
    requires Taking(s, c, me, base, it) && it != me && IsSet(s.flag, it)
    ensures Steps(s, c, act, 3) == s.(ready := s.ready[1..] + [it])
  {
    var s1 := On(s.(ready := s.ready[1..]), me, base, Got(me, it));
    assert Next(s, Step(c, act)) == s1;
    var s2 := On(s1, me, base, Requeue(me, it));
    assert Next(s1, Step(c, act)) == s2;
    assert Next(s2, Step(c, act)) == s.(ready := s.ready[1..] + [it]);
    assert Steps(s, c, act, 3) == Steps(s1, c, act, 2) == Steps(s2, c, act, 1);
  }

  /** Several such threads, one after the other */
  lemma {:induction false} DefersAll(s: State, c: nat, me: Tid, base: seq<Frame>, n: nat, act: Act)
    requires c < |s.cur| == |s.active| && s.cur[c] == me && Sized(s) && me < |s.stack| && n <= |s.ready|
    requires s.stack[me] == base + [Block(me)]
    requires forall i :: 0 <= i < n ==> IsSet(s.flag, s.ready[i]) && s.ready[i] != me
    ensures Steps(s, c, act, 3 * n) == s.(ready := s.ready[n..] + s.ready[..n])
    decreases n
  {
    hide Next;
    if n == 0 {
      assert s.ready[0..] + s.ready[..0] == s.ready;
    } else {
      Defers(s, c, me, base, s.ready[0], act);
      var s3 := Steps(s, c, act, 3);
      DefersAll(s3, c, me, base, n - 1, act);
      StepsAdd(s, c, act, 3, 3 * (n - 1));
      assert s3.ready[n - 1..] + s3.ready[..n - 1] == s.ready[n..] + s.ready[..n];
    }
  }

  /** block, when the head is the thread itself: it goes on where it was, its flag down. */
  lemma MeetsItself(s: State, c: nat, me: Tid, base: seq<Frame>, act: Act)
    requires Taking(s, c, me, base, me)
    ensures Steps(s, c, act, 2) == s.(ready := s.ready[1..], flag := s.flag[me := false], stack := s.stack[me := base])
  {
    var s1 := On(s.(ready := s.ready[1..]), me, base, Got(me, me));
    assert Next(s, Step(c, act)) == s1;
    var s2 := s.(ready := s.ready[1..], flag := s.flag[me := false], stack := s.stack[me := base]);
    assert Next(s1, Step(c, act)) == s2;
    assert Steps(s, c, act, 2) == Steps(s1, c, act, 1);
  }

  /** A timer interrupt while the flag of the active thread is up comes to nothing. */
  lemma InterruptReturns(s: State, c: nat, act: Act)
    requires c < |s.cur| == |s.active| && s.cur[c] < |s.stack| && IsSet(s.flag, s.active[c])
    ensures Steps(Next(s, Interrupt(c)), c, act, 2) == s
  {
    var me, base := s.cur[c], s.stack[s.cur[c]];
    var s1, s2 := On(s, me, base, YieldRead), On(s, me, base, YieldCheck(s.active[c]));
    assert Next(s, Interrupt(c)) == s1 && Next(s1, Step(c, act)) == s2;
    assert (base + [YieldCheck(s.active[c])])[..|base|] == base && s.stack[me := base] == s.stack;
    assert Next(s2, Step(c, act)) == s;
    assert Steps(s1, c, act, 2) == Steps(s2, c, act, 1);
  }

  // ---- yield, stop and down, which block

  lemma YieldQueues(s: State, c: nat, me: Tid)
    requires InCode(s, c, me)
    ensures Steps(s, c, Yield, 5)
      == On(s.(ready := s.ready + [me], flag := s.flag[me := true]), me, [Run], Block(me))
  {
    var s1, s2, s3 := On(s, me, [Run], YieldRead), On(s, me, [Run], YieldCheck(me)), On(s, me, [Run], YieldSet(me));
    assert Next(s, Step(c, Yield)) == s1 && Next(s1, Step(c, Yield)) == s2 && Next(s2, Step(c, Yield)) == s3;
    var s4 := On(s.(flag := s.flag[me := true]), me, [Run], YieldAdd(me));
    assert Next(s3, Step(c, Yield)) == s4;
    var s5 := On(s.(ready := s.ready + [me], flag := s.flag[me := true]), me, [Run], Block(me));
    assert Next(s4, Step(c, Yield)) == s5;
    assert Steps(s, c, Yield, 5) == Steps(s1, c, Yield, 4) == Steps(s2, c, Yield, 3) == Steps(s3, c, Yield, 2)
      == Steps(s4, c, Yield, 1);
  }

  lemma StopQueues(s: State, c: nat, me: Tid)
    requires InCode(s, c, me)
    ensures Steps(s, c, Stop, 3)
      == On(s.(zombies := s.zombies + [me], flag := s.flag[me := true]), me, [Run], Block(me))
  {
    var s1 := On(s, me, [Run], StopSet(me));
    assert Next(s, Step(c, Stop)) == s1;
    var s2 := On(s.(flag := s.flag[me := true]), me, [Run], StopAdd(me));
    assert Next(s1, Step(c, Stop)) == s2;
    var s3 := On(s.(zombies := s.zombies + [me], flag := s.flag[me := true]), me, [Run], Block(me));
    assert Next(s2, Step(c, Stop)) == s3;
    assert Steps(s, c, Stop, 3) == Steps(s1, c, Stop, 2) == Steps(s2, c, Stop, 1);
  }

  /** The state in which c executes `it` and thread me, which was in its own code, is switched out. */
  function Handed(s: State, c: nat, me: Tid, it: Tid): State
    requires InCode(s, c, me) && it < |s.stack|
  {
    s.(cur := s.cur[c := it], active := s.active[c := it], saved := s.saved[me := true][it := false],
       stack := s.stack[me := [Run, Parked]][it := Popped(s.stack[it])])
  }

  /** Whatever queue the thread is in: from its Block on, the switch. */
  lemma HandsOver(s: State, c: nat, me: Tid, it: Tid, s1: State, n: nat, act: Act)
    requires InCode(s, c, me) && SwitchedOut(s, it) && it != me && n < |s1.ready| && s1.ready[n] == it
    requires forall i :: 0 <= i < n ==> IsSet(s.flag, s1.ready[i]) && s1.ready[i] != me
    requires s1 == On(s.(ready := s1.ready, zombies := s1.zombies, sems := s1.sems, flag := s.flag[me := true]),
                      me, [Run], Block(me))
    ensures Steps(s1, c, act, 3 * n + 8)
      == Handed(s, c, me, it).(ready := s1.ready[n + 1..] + s1.ready[..n], zombies := s1.zombies, sems := s1.sems)
  {
    hide Next;
    DefersAll(s1, c, me, [Run], n, act);
    var s2 := s1.(ready := s1.ready[n..] + s1.ready[..n]);
    Switches(s2, c, me, [Run], it, act);
    StepsAdd(s1, c, act, 3 * n, 8);
    var s8 := Switched(s2, c, me, [Run], it);
    assert s2.ready[1..] == s1.ready[n + 1..] + s1.ready[..n];
    assert s2.flag[me := false] == s.flag;
    assert [Run] + [Parked] == [Run, Parked];
    assert s8.stack == s.stack[me := [Run, Parked]][it := Popped(s.stack[it])];
  }

  /**
    An uninterrupted yield ends with the first ready thread running whose flag is down, and the yielder behind
    all others that were ready, but for those it passed over.
  */
  lemma YieldSwitches(cpus: nat, counts: seq<nat>, moves: seq<Move>, s: State, c: nat, n: nat)
    requires s == Runs(Boot(cpus, counts), moves) && c < |s.cur| && Top(s, c) == Run
    requires FirstFree(s, n)
    ensures var me, it := s.cur[c], s.ready[n];
      && InCode(s, c, me) && it < |s.stack|
      && Steps(s, c, Yield, 13 + 3 * n) == Handed(s, c, me, it).(ready := s.ready[n + 1..] + [me] + s.ready[..n])
      && Last(s.stack[it]) == Parked
  {
    hide Next, Runs, Boot;
    AtCode(cpus, counts, moves, s, c);
    var me, it := s.cur[c], s.ready[n];
    YieldQueues(s, c, me);
    var s5 := Steps(s, c, Yield, 5);
    HandsOver(s, c, me, it, s5, n, Yield);
    StepsAdd(s, c, Yield, 5, 3 * n + 8);
    assert s5.ready[n + 1..] + s5.ready[..n] == s.ready[n + 1..] + [me] + s.ready[..n];
  }

  /** With every other ready thread under its flag, it ends where it began. */
  lemma YieldReturns(cpus: nat, counts: seq<nat>, moves: seq<Move>, s: State, c: nat)
    requires s == Runs(Boot(cpus, counts), moves) && c < |s.cur| && Top(s, c) == Run
    requires forall i :: 0 <= i < |s.ready| ==> IsSet(s.flag, s.ready[i])
    ensures Steps(s, c, Yield, 7 + 3 * |s.ready|) == s
  {
    hide Next, Runs, Boot;
    AtCode(cpus, counts, moves, s, c);
    var me, n := s.cur[c], |s.ready|;
    YieldQueues(s, c, me);
    var s5 := Steps(s, c, Yield, 5);
    DefersAll(s5, c, me, [Run], n, Yield);
    var s6 := s5.(ready := [me] + s.ready);
    assert s5.ready[n..] + s5.ready[..n] == s6.ready;
    MeetsItself(s6, c, me, [Run], Yield);
    StepsAdd(s, c, Yield, 5, 3 * n);
    StepsAdd(s, c, Yield, 5 + 3 * n, 2);
    assert s6.flag[me := false] == s.flag && s6.ready[1..] == s.ready && s6.stack[me := [Run]] == s.stack;
  }

  /** stop: the same, with the thread last among the zombies. */
  lemma StopSwitches(cpus: nat, counts: seq<nat>, moves: seq<Move>, s: State, c: nat, n: nat)
    requires s == Runs(Boot(cpus, counts), moves) && c < |s.cur| && Top(s, c) == Run
    requires FirstFree(s, n)
    ensures var me, it := s.cur[c], s.ready[n];
      && InCode(s, c, me) && it < |s.stack|
      && Steps(s, c, Stop, 11 + 3 * n)
        == Handed(s, c, me, it).(ready := s.ready[n + 1..] + s.ready[..n], zombies := s.zombies + [me])
  {
    hide Next, Runs, Boot;
    AtCode(cpus, counts, moves, s, c);
    var me, it := s.cur[c], s.ready[n];
    StopQueues(s, c, me);
    var s3 := Steps(s, c, Stop, 3);
    HandsOver(s, c, me, it, s3, n, Stop);
    StepsAdd(s, c, Stop, 3, 3 * n + 8);
  }

  /** A down with count 0: the same, with the thread last among the waiters. */
  lemma DownSwitches(cpus: nat, counts: seq<nat>, moves: seq<Move>, s: State, c: nat, k: nat, n: nat)
    requires s == Runs(Boot(cpus, counts), moves) && c < |s.cur| && Top(s, c) == Run && k < |s.sems|
    requires s.sems[k].count == 0 && FirstFree(s, n)
    ensures var me, it := s.cur[c], s.ready[n];
      && InCode(s, c, me) && it < |s.stack|
      && var s' := Steps(s, c, Await(k), 9 + 3 * n);
      && |s'.sems| == |s.sems|
      && s' == Handed(s, c, me, it).(ready := s.ready[n + 1..] + s.ready[..n], sems := s'.sems)
      && (forall j :: 0 <= j < |s.sems| && j != k ==> s'.sems[j] == s.sems[j])
      && s'.sems[k].count == 0 && s'.sems[k].waiting == s.sems[k].waiting + [me]
  {
    hide Runs, Boot;
    AtCode(cpus, counts, moves, s, c);
    var me, it := s.cur[c], s.ready[n];
    DownQueues(s, c, me, k);
    var s1 := Next(s, Step(c, Await(k)));
    HandsOver(s, c, me, it, s1, n, Await(k));
    hide Next;
    assert Steps(s, c, Await(k), 9 + 3 * n) == Steps(s1, c, Await(k), 3 * n + 8);
  }

  lemma DownQueues(s: State, c: nat, me: Tid, k: nat)
    requires InCode(s, c, me) && k < |s.sems| && s.sems[k].count == 0
    ensures Next(s, Step(c, Await(k)))
      == On(s.(sems := s.sems[k := Down(s.sems[k], me)], flag := s.flag[me := true]), me, [Run], Block(me))
  {
  }

  /** A down with a count above 0 takes 1 off it, and nothing else happens. */
  lemma DownPasses(cpus: nat, counts: seq<nat>, moves: seq<Move>, s: State, c: nat, k: nat)
    requires s == Runs(Boot(cpus, counts), moves) && c < |s.cur| && Top(s, c) == Run && k < |s.sems|
    requires s.sems[k].count > 0
    ensures var s' := Next(s, Step(c, Await(k)));
      && |s'.sems| == |s.sems| && s' == s.(sems := s'.sems)
      && (forall j :: 0 <= j < |s.sems| && j != k ==> s'.sems[j] == s.sems[j])
      && s'.sems[k].count == s.sems[k].count - 1 && s'.sems[k].waiting == s.sems[k].waiting
  {
    hide Runs, Boot;
    AtCode(cpus, counts, moves, s, c);
  }

  // ---- up and thread creation, which schedule

  /** An up while threads wait takes the first of them off the queue; the next step makes it ready. */
  lemma UpWakes(cpus: nat, counts: seq<nat>, moves: seq<Move>, s: State, c: nat, k: nat)
    requires s == Runs(Boot(cpus, counts), moves) && c < |s.cur| && Top(s, c) == Run && k < |s.sems|
    requires s.sems[k].waiting != []
    ensures var s', s'' := Next(s, Step(c, Signal(k))), Steps(s, c, Signal(k), 2);
      && |s'.sems| == |s.sems| && s'.sems[k].waiting == s.sems[k].waiting[1..] && s'.ready == s.ready
      && (forall j :: 0 <= j < |s.sems| && j != k ==> s'.sems[j] == s.sems[j])
      && s'.sems[k].count == s.sems[k].count
      && s'' == s.(sems := s'.sems, ready := s.ready + [s.sems[k].waiting[0]])
  {
    hide Runs, Boot;
    AtCode(cpus, counts, moves, s, c);
    var me, it := s.cur[c], s.sems[k].waiting[0];
    var s1 := On(s.(sems := s.sems[k := Up(s.sems[k])]), me, [Run], Give(it));
    assert Next(s, Step(c, Signal(k))) == s1;
    var s2 := s.(sems := s1.sems, ready := s.ready + [it]);
    assert Next(s1, Step(c, Signal(k))) == s2;
    assert Steps(s, c, Signal(k), 2) == Steps(s1, c, Signal(k), 1);
  }

  /** With no thread waiting it adds 1 to the count, and nothing else happens. */
  lemma UpCounts(cpus: nat, counts: seq<nat>, moves: seq<Move>, s: State, c: nat, k: nat)
    requires s == Runs(Boot(cpus, counts), moves) && c < |s.cur| && Top(s, c) == Run && k < |s.sems|
    requires s.sems[k].waiting == []
    ensures var s' := Next(s, Step(c, Signal(k)));
      && |s'.sems| == |s.sems| && s' == s.(sems := s'.sems)
      && (forall j :: 0 <= j < |s.sems| && j != k ==> s'.sems[j] == s.sems[j])
      && s'.sems[k].count == s.sems[k].count + 1 && s'.sems[k].waiting == []
  {
    hide Runs, Boot;
    AtCode(cpus, counts, moves, s, c);
  }

  /** A new thread is ready after two steps, saved, with its own code below the saved context. */
  lemma SpawnReadies(cpus: nat, counts: seq<nat>, moves: seq<Move>, s: State, c: nat)
    requires s == Runs(Boot(cpus, counts), moves) && c < |s.cur| && Top(s, c) == Run
    ensures Steps(s, c, Spawn, 2) ==
      s.(stack := s.stack + [[Run, Parked]], flag := s.flag + [false], saved := s.saved + [true],
         deleted := s.deleted + [false], dropped := s.dropped + [false], ready := s.ready + [|s.stack|])
  {
    hide Runs, Boot;
    AtCode(cpus, counts, moves, s, c);
    var me, t := s.cur[c], |s.stack|;
    assert [Run] + [Give(t)] == [Run, Give(t)];
    var s1 := s.(stack := s.stack[me := [Run, Give(t)]] + [[Run, Parked]], flag := s.flag + [false],
                 saved := s.saved + [true], deleted := s.deleted + [false], dropped := s.dropped + [false]);
    assert Next(s, Step(c, Spawn)) == s1;
    assert Steps(s, c, Spawn, 2) == Steps(s1, c, Spawn, 1);
  }

  // ---- reaper

  /** The reaper deletes every zombie, when all their flags are down, and returns. */
  lemma Reaps(cpus: nat, counts: seq<nat>, moves: seq<Move>, s: State, c: nat)
    requires s == Runs(Boot(cpus, counts), moves) && c < |s.cur| && Top(s, c) == Run
    requires forall i :: 0 <= i < |s.zombies| ==> !IsSet(s.flag, s.zombies[i])
    ensures var n := |s.zombies|;
      && Steps(s, c, Reaper, 3 * n + 2) == s.(zombies := [], deleted := AllOf(s.deleted, s.zombies))
      && forall t :: 0 <= t < |s.deleted| ==> (AllOf(s.deleted, s.zombies)[t] <==> s.deleted[t] || t in s.zombies)
  {
    hide Runs, Boot;
    AtCode(cpus, counts, moves, s, c);
    var me := s.cur[c];
    var s1 := On(s, me, [Run], Reap(None));
    assert Next(s, Step(c, Reaper)) == s1;
    ReapsRest(s1, c, me);
  }

  function AllOf(deleted: seq<bool>, ts: seq<Tid>): (r: seq<bool>)
    ensures |r| == |deleted| && forall t :: 0 <= t < |r| ==> (r[t] <==> deleted[t] || t in ts)
    decreases |ts|
  {
    if |ts| == 0 then deleted else AllOf(Put(deleted, ts[0], true), ts[1..])
  }

  lemma {:induction false} ReapsRest(s: State, c: nat, me: Tid)
    requires c < |s.cur| == |s.active| && s.cur[c] == me && me < |s.stack| && s.stack[me] == [Run, Reap(None)]
    requires forall i :: 0 <= i < |s.zombies| ==> !IsSet(s.flag, s.zombies[i])
    ensures Steps(s, c, Reaper, 3 * |s.zombies| + 1)
      == s.(zombies := [], deleted := AllOf(s.deleted, s.zombies), stack := s.stack[me := [Run]])
    decreases |s.zombies|
  {
    hide Next;
    if s.zombies == [] {
      ReapEnds(s, c, me);
    } else {
      OneReaped(s, c, me, s.zombies[0]);
      var s3 := Steps(s, c, Reaper, 3);
      ReapsRest(s3, c, me);
      StepsAdd(s, c, Reaper, 3, 3 * |s3.zombies| + 1);
    }
  }

  lemma ReapEnds(s: State, c: nat, me: Tid)
    requires c < |s.cur| == |s.active| && s.cur[c] == me && me < |s.stack| && s.stack[me] == [Run, Reap(None)]
    requires s.zombies == []
    ensures Steps(s, c, Reaper, 1) == s.(stack := s.stack[me := [Run]])
  {
    assert [Run, Reap(None)][..1] == [Run];
    assert Next(s, Step(c, Reaper)) == s.(stack := s.stack[me := [Run]]);
  }

  lemma OneReaped(s: State, c: nat, me: Tid, it: Tid)
    requires c < |s.cur| == |s.active| && s.cur[c] == me && me < |s.stack| && s.stack[me] == [Run, Reap(None)]
    requires |s.zombies| > 0 && s.zombies[0] == it && !IsSet(s.flag, it)
    ensures Steps(s, c, Reaper, 3) == s.(zombies := s.zombies[1..], deleted := Put(s.deleted, it, true))
  {
    assert [Run, Reap(None)] == [Run] + [Reap(None)];
    var s1 := On(s.(zombies := s.zombies[1..]), me, [Run], ReapGot(it, None));
    assert Next(s, Step(c, Reaper)) == s1;
    var s2 := On(s1, me, [Run], ReapFree(it, None));
    assert Next(s1, Step(c, Reaper)) == s2;
    var s3 := s.(zombies := s.zombies[1..], deleted := Put(s.deleted, it, true));
    assert Next(s2, Step(c, Reaper)) == s3;
    assert Steps(s, c, Reaper, 3) == Steps(s1, c, Reaper, 2) == Steps(s2, c, Reaper, 1);
  }

  /** A zombie alone in its queue, its flag up: the reaper meets it twice, and loses it. */
  lemma ReaperGivesUp(cpus: nat, counts: seq<nat>, moves: seq<Move>, s: State, c: nat, it: Tid)
    requires s == Runs(Boot(cpus, counts), moves) && c < |s.cur| && Top(s, c) == Run
    requires s.zombies == [it] && IsSet(s.flag, it)
    ensures Steps(s, c, Reaper, 6) == s.(zombies := [], dropped := Put(s.dropped, it, true))
  {
    hide Runs, Boot;
    AtCode(cpus, counts, moves, s, c);
    var me := s.cur[c];
    hide Next, Steps;
    var s4 := GoesRound(s, c, me, it);
    GivesUp(s, c, me, it, s4);
    StepsAdd(s, c, Reaper, 4, 2);
  }

  lemma GoesRound(s: State, c: nat, me: Tid, it: Tid) returns (s4: State)
    requires InCode(s, c, me) && s.zombies == [it] && IsSet(s.flag, it)
    ensures s4 == On(s, me, [Run], Reap(Some(it))) && s4 == Steps(s, c, Reaper, 4)
  {
    var s1 := On(s, me, [Run], Reap(None));
    assert Next(s, Step(c, Reaper)) == s1;
    var s2 := On(s.(zombies := []), me, [Run], ReapGot(it, None));
    assert Next(s1, Step(c, Reaper)) == s2;
    var s3 := On(s.(zombies := []), me, [Run], ReapBack(it, Some(it)));
    assert Next(s2, Step(c, Reaper)) == s3;
    s4 := On(s, me, [Run], Reap(Some(it)));
    assert Next(s3, Step(c, Reaper)) == s4;
    assert Steps(s, c, Reaper, 4) == Steps(s1, c, Reaper, 3) == Steps(s2, c, Reaper, 2) == Steps(s3, c, Reaper, 1);
  }

  lemma GivesUp(s: State, c: nat, me: Tid, it: Tid, s4: State)
    requires c < |s.cur| == |s.active| && s.cur[c] == me && me < |s.stack| && s.stack[me] == [Run]
    requires s.zombies == [it] && IsSet(s.flag, it) && s4 == On(s, me, [Run], Reap(Some(it)))
    ensures Steps(s4, c, Reaper, 2) == s.(zombies := [], dropped := Put(s.dropped, it, true))
  {
    var s5 := On(s.(zombies := []), me, [Run], ReapGot(it, Some(it)));
    assert Next(s4, Step(c, Reaper)) == s5;
    var s6 := s.(zombies := [], dropped := Put(s.dropped, it, true));
    assert ([Run] + [ReapGot(it, Some(it))])[..1] == [Run];
    assert Next(s5, Step(c, Reaper)) == s6;
    assert Steps(s4, c, Reaper, 2) == Steps(s5, c, Reaper, 1);
  }
}
