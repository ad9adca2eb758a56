/**
  What the scheduler guarantees in every state that any number of CPUs, threads, semaphores and
  timer interrupts can reach, stated over the machine's own state.
*/
module SchedulerSafety {
  import opened Scheduler
  import opened SchedulerProof
  import opened Semaphores

  /** threadsInit: CPU c executes thread c, and every queue is empty. */
  function Boot(cpus: nat, counts: seq<nat>): State {
    var own := seq(cpus, (c: nat) => c);
    var no := seq(cpus, _ => false);
    State(own, own, seq(cpus, _ => [Run]), no, no, no, no, [], [],
          seq(|counts|, (k: nat) requires k < |counts| => Created(counts[k])))
  }

  function Runs(s: State, moves: seq<Move>): State
    decreases |moves|
  {
    if moves == [] then s else Next(Runs(s, moves[..|moves| - 1]), moves[|moves| - 1])
  }

  /** A slot that can hold a thread: a queue position, or a local variable of a routine. */
  datatype Slot = ReadyAt(i: nat) | ZombieAt(i: nat) | WaitingAt(k: nat, i: nat) | HeldBy(h: Tid, i: nat)

  ghost predicate Holds(s: State, p: Slot, t: Tid) {
    match p
    case ReadyAt(i) => i < |s.ready| && s.ready[i] == t
    case ZombieAt(i) => i < |s.zombies| && s.zombies[i] == t
    case WaitingAt(k, i) => k < |s.sems| && i < |s.sems[k].waiting| && s.sems[k].waiting[i] == t
    case HeldBy(h, i) => h < |s.stack| && i < |s.stack[h]| && Held(s.stack[h][i]) == t
  }

  predicate Executes(s: State, t: Tid) { t in s.cur }

  /** No thread runs on two CPUs. */
  ghost predicate OneCpu(s: State) {
    forall c, c' :: 0 <= c < c' < |s.cur| ==> s.cur[c] != s.cur[c']
  }

  /** Each thread is in at most one queue position or hand. */
  ghost predicate OneSlot(s: State) {
    forall t, p, p' :: Holds(s, p, t) && Holds(s, p', t) ==> p == p'
  }

  /** A thread that does not run is in a queue or a hand, unless the reaper has disposed of it. */
  ghost predicate NoneLost(s: State) {
    forall t :: 0 <= t < |s.stack| && !Executes(s, t) ==>
      (exists p :: Holds(s, p, t)) || (t < |s.deleted| && s.deleted[t]) || (t < |s.dropped| && s.dropped[t])
  }

  /** A CPU about to load a stack pointer loads one that is saved and that nobody executes on. */
  ghost predicate ResumesSaved(s: State) {
    forall c :: 0 <= c < |s.cur| && Top(s, c).Jump? ==>
      IsSet(s.saved, Top(s, c).it) && !Executes(s, Top(s, c).it)
  }

  /** What leaveMeAlone is for: with the flag down, a thread that can be picked up is saved and not running. */
  ghost predicate FlagProtects(s: State) {
    forall t, p :: Holds(s, p, t) && !IsSet(s.flag, t) ==> IsSet(s.saved, t) && !Executes(s, t)
  }

  /** A routine that raises a flag, queues a thread, or saves and switches does so for the thread it runs on. */
  ghost predicate ActsOnSelf(s: State) {
    forall c :: 0 <= c < |s.cur| ==>
      match Top(s, c)
      case YieldSet(me) => me == s.cur[c]
      case YieldAdd(me) => me == s.cur[c]
      case StopSet(me) => me == s.cur[c]
      case StopAdd(me) => me == s.cur[c]
      case Save(me, _) => me == s.cur[c]
      case Jump(me, _) => me == s.cur[c]
      case _ => true
  }

  /** The reaper deletes only threads that were switched out for good. */
  ghost predicate ReapsParked(s: State) {
    forall c :: 0 <= c < |s.cur| && Top(s, c).ReapFree? ==>
      var t := Top(s, c).it;
      && IsSet(s.saved, t) && !Executes(s, t) && t !in s.active && t !in s.ready
      && forall k :: 0 <= k < |s.sems| ==> t !in s.sems[k].waiting
  }

  /** No CPU, queue or pending step of a CPU refers to a deleted thread. */
  ghost predicate NoDangling(s: State) {
    forall t :: 0 <= t < |s.deleted| && s.deleted[t] ==>
      && !Executes(s, t) && t !in s.active && t !in s.ready && t !in s.zombies
      && (forall k :: 0 <= k < |s.sems| ==> t !in s.sems[k].waiting)
      && (forall c :: 0 <= c < |s.cur| ==> t !in Names(Top(s, c)))
  }

  ghost predicate Safe(s: State) {
    && OneCpu(s) && OneSlot(s) && NoneLost(s) && ResumesSaved(s) && FlagProtects(s)
    && ActsOnSelf(s) && ReapsParked(s) && NoDangling(s) && Accounts(s.sems)
  }

  // ---- the invariant implies each of them

  lemma OneCpuHolds(s: State, x: Shadow)
    requires Inv(s, x)
    ensures OneCpu(s)
    ensures forall t :: 0 <= t < |s.stack| ==> (Executes(s, t) <==> x.mark[t] != Parked)
  {
    hide Frames, Queues, Saves, Flags, Places, Pins, Acts, Dead;
    forall t | 0 <= t < |s.stack| ensures Executes(s, t) <==> x.mark[t] != Parked {
      if x.on[t] >= 0 { assert s.cur[x.on[t]] == t; }
    }
  }

  /** The slot of a thread is the one that the shadow records. */
  lemma SlotIs(s: State, x: Shadow, p: Slot, t: Tid)
    requires Inv(s, x) && Holds(s, p, t)
    ensures t < |s.stack|
    ensures match p
      case ReadyAt(_) => x.loc[t] == OnReady
      case ZombieAt(_) => x.loc[t] == OnZombies
      case WaitingAt(k, _) => x.loc[t] == OnSem(k)
      case HeldBy(h, i) => x.loc[t] == InHand(h, i)
  {
    hide Stacks, Clears, Tables, Accounts;
  }

  lemma OneSlotHolds(s: State, x: Shadow)
    requires Inv(s, x)
    ensures OneSlot(s)
  {
    hide Inv, Holds;
    forall t, p, p' | Holds(s, p, t) && Holds(s, p', t) ensures p == p' {
      SlotIs(s, x, p, t);
      SlotIs(s, x, p', t);
      SameIndex(s, x, p, p', t);
    }
  }

  lemma SameIndex(s: State, x: Shadow, p: Slot, p': Slot, t: Tid)
    requires Inv(s, x) && Holds(s, p, t) && Holds(s, p', t)
    requires p.ReadyAt? == p'.ReadyAt? && p.ZombieAt? == p'.ZombieAt? && p.WaitingAt? == p'.WaitingAt?
    requires p.WaitingAt? ==> p.k == p'.k
    requires p.HeldBy? ==> p == p'
    ensures p == p'
  {
    hide Frames, Tables, Accounts;
  }

  /** Where a thread that is not running is found. */
  lemma SlotOf(s: State, x: Shadow, t: Tid) returns (p: Slot)
    requires Inv(s, x) && t < |s.stack| && x.loc[t] != Running && x.loc[t] != Lost
    ensures Holds(s, p, t)
  {
    hide Stacks, Clears, Tables, Accounts;
    match x.loc[t]
    case OnReady =>
      assert t in s.ready;
      var i :| 0 <= i < |s.ready| && s.ready[i] == t;
      p := ReadyAt(i);
    case OnZombies =>
      assert t in s.zombies;
      var i :| 0 <= i < |s.zombies| && s.zombies[i] == t;
      p := ZombieAt(i);
    case OnSem(k) =>
      assert t in s.sems[k].waiting;
      var i :| 0 <= i < |s.sems[k].waiting| && s.sems[k].waiting[i] == t;
      p := WaitingAt(k, i);
    case InHand(h, i) => p := HeldBy(h, i);
  }

  lemma NoneLostHolds(s: State, x: Shadow)
    requires Inv(s, x)
    ensures NoneLost(s)
  {
    hide Frames, Queues, Cpus, Parks, Saves, Flags, Pins, Acts, Holds;
    OneCpuHolds(s, x);
    forall t | 0 <= t < |s.stack| && !Executes(s, t) && !s.deleted[t] && !s.dropped[t]
      ensures exists p :: Holds(s, p, t)
    {
      var p := SlotOf(s, x, t);
    }
  }

  lemma FlagProtectsHolds(s: State, x: Shadow)
    requires Inv(s, x)
    ensures FlagProtects(s)
  {
    hide Frames, Queues, Cpus, Parks, Flags, Places, Pins, Acts, Dead, Holds;
    OneCpuHolds(s, x);
    forall t, p | Holds(s, p, t) && !IsSet(s.flag, t) ensures IsSet(s.saved, t) && !Executes(s, t) {
      SlotIs(s, x, p, t);
      Unflagged(s, x, t);
    }
  }

  lemma TopFacts(s: State, x: Shadow, c: nat)
    requires Inv(s, x) && c < |s.cur|
    ensures var f := Top(s, c);
      && (f.Jump? ==> IsSet(s.saved, f.it) && !Executes(s, f.it))
      && (f.ReapFree? ==> f.it < |s.stack| && x.mark[f.it] == Parked && x.pin[f.it] == Loose && x.loc[f.it].InHand?)
      && SelfOk(s.cur[c], false, Run, if f.YieldCheck? then Run else f)
  {
    hide Stacks, StackOk, Queues, Clears, Hands, Cpus, Parks, Flags, Places, Pins, Acts, Dead;
    Facts(s, x, c);
    OneCpuHolds(s, x);
    if Held(Top(s, c)) >= 0 {
      HeldFacts(s, x, c);
    }
  }

  lemma ReapsParkedHolds(s: State, x: Shadow)
    requires Inv(s, x)
    ensures ReapsParked(s)
  {
    hide Frames, Queues, Cpus, Parks, Flags, Places, Pins, Acts, Dead;
    OneCpuHolds(s, x);
    forall c | 0 <= c < |s.cur| && Top(s, c).ReapFree? ensures
        var t := Top(s, c).it;
        && IsSet(s.saved, t) && !Executes(s, t) && t !in s.active && t !in s.ready
        && forall k :: 0 <= k < |s.sems| ==> t !in s.sems[k].waiting
    {
      TopFacts(s, x, c);
      NotShown(s, x, Top(s, c).it);
      NotQueued(s, x, Top(s, c).it);
    }
  }

  /** activeThreads never names a thread that is parked with nobody owning its flag. */
  lemma NotShown(s: State, x: Shadow, t: Tid)
    requires Inv(s, x) && t < |s.stack| && x.mark[t] == Parked && x.pin[t] == Loose
    ensures t !in s.active
  {
    hide Frames, Queues, Saves, Flags, Places, Dead;
    forall c | 0 <= c < |s.active| ensures s.active[c] != t {
      assert s.active[c] == Shown(s.cur[c], x.mark[s.cur[c]]);
      assert x.on[s.cur[c]] == c;
    }
  }

  lemma NotQueued(s: State, x: Shadow, t: Tid)
    requires Inv(s, x) && t < |s.stack| && (x.loc[t] == Lost || x.loc[t].InHand?)
    ensures t !in s.ready && t !in s.zombies
    ensures forall k :: 0 <= k < |s.sems| ==> t !in s.sems[k].waiting
  {
    hide Frames, Tables, Accounts;
  }

  /** The threads that a running routine names: itself, one it holds, or one whose flag it owns. */
  lemma NamedAlive(s: State, x: Shadow, c: nat, t: Tid)
    requires Inv(s, x) && c < |s.cur| && t in Names(Top(s, c))
    ensures t < |s.stack| && (t == s.cur[c] || x.loc[t].InHand? || x.pin[t] != Loose)
  {
    hide Stacks, StackOk, Queues, Clears, Cpus, Parks, Saves, Flags, Places, Acts, Dead;
    Facts(s, x, c);
  }

  lemma NoDanglingHolds(s: State, x: Shadow)
    requires Inv(s, x)
    ensures NoDangling(s)
  {
    hide Frames, Queues, Cpus, Parks, Saves, Flags, Places, Pins, Acts;
    OneCpuHolds(s, x);
    forall t | 0 <= t < |s.deleted| && s.deleted[t]
      ensures !Executes(s, t) && t !in s.active && t !in s.ready && t !in s.zombies
      ensures forall k :: 0 <= k < |s.sems| ==> t !in s.sems[k].waiting
      ensures forall c :: 0 <= c < |s.cur| ==> t !in Names(Top(s, c))
    {
      NotShown(s, x, t);
      NotQueued(s, x, t);
      forall c | 0 <= c < |s.cur| ensures t !in Names(Top(s, c)) {
        if t in Names(Top(s, c)) { NamedAlive(s, x, c, t); }
      }
    }
  }

  lemma InvIsSafe(s: State, x: Shadow)
    requires Inv(s, x)
    ensures Safe(s)
  {
    hide Frames, Tables, OneCpu, OneSlot, NoneLost, FlagProtects, ReapsParked, NoDangling, Executes, Names;
    OneCpuHolds(s, x);
    OneSlotHolds(s, x);
    NoneLostHolds(s, x);
    FlagProtectsHolds(s, x);
    ReapsParkedHolds(s, x);
    NoDanglingHolds(s, x);
    forall c | 0 <= c < |s.cur|
      ensures Top(s, c).Jump? ==> IsSet(s.saved, Top(s, c).it) && !Executes(s, Top(s, c).it)
      ensures SelfOk(s.cur[c], false, Run, if Top(s, c).YieldCheck? then Run else Top(s, c))
    {
      TopFacts(s, x, c);
    }
  }

  // ---- all runs

  function BootShadow(cpus: nat): Shadow {
    Shadow(seq(cpus, (c: nat) => c), seq(cpus, _ => Running), seq(cpus, _ => Loose),
           seq(cpus, _ => -1), seq(cpus, _ => Run))
  }

  lemma BootInv(cpus: nat, counts: seq<nat>)
    ensures Inv(Boot(cpus, counts), BootShadow(cpus))
  {
    hide Frames, Queues, Tables;
    BootFrames(cpus, counts);
    BootQueues(cpus, counts);
    BootTables(cpus, counts);
  }

  lemma BootFrames(cpus: nat, counts: seq<nat>)
    ensures Frames(Boot(cpus, counts).stack, BootShadow(cpus))
  {
  }

  lemma BootQueues(cpus: nat, counts: seq<nat>)
    ensures var s := Boot(cpus, counts); Queues(s.ready, s.zombies, s.sems, BootShadow(cpus).loc)
  {
  }

  lemma BootTables(cpus: nat, counts: seq<nat>)
    ensures Fitting(Boot(cpus, counts), BootShadow(cpus)) && Tables(Boot(cpus, counts), BootShadow(cpus))
  {
  }

  lemma {:induction false} RunsInv(cpus: nat, counts: seq<nat>, moves: seq<Move>) returns (x: Shadow)
    ensures Inv(Runs(Boot(cpus, counts), moves), x)
    decreases |moves|
  {
    hide Inv, Next, Boot;
    if moves == [] {
      BootInv(cpus, counts);
      x := BootShadow(cpus);
    } else {
      var x0 := RunsInv(cpus, counts, moves[..|moves| - 1]);
      x := NextKeeps(Runs(Boot(cpus, counts), moves[..|moves| - 1]), x0, moves[|moves| - 1]);
    }
  }

  /** Whatever the number of CPUs and the order of their steps, every state reached is safe. */
  lemma SafeRuns(cpus: nat, counts: seq<nat>, moves: seq<Move>)
    ensures Safe(Runs(Boot(cpus, counts), moves))
  {
    hide Inv, Next, Boot, Safe;
    var x := RunsInv(cpus, counts, moves);
    InvIsSafe(Runs(Boot(cpus, counts), moves), x);
  }
}
