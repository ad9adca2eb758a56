/**
  What every step of the scheduler keeps, and what follows from it: a thread never runs on two
  CPUs, is never in two queues or hands, is resumed only from a complete save, and is deleted
  only when nothing will touch it again.
*/
module SchedulerProof {
  import opened Options
  import opened Scheduler
  import opened Semaphores

  /** Where a thread is handed around: on a queue, in a local variable of frame i of stack h, or nowhere. */
  datatype Loc = Running | OnReady | OnZombies | OnSem(k: nat) | InHand(h: Tid, i: nat) | Lost

  /** Who owns the flag of a parked thread: the CPU that just left it, one that claimed it, or nobody. */
  datatype Pin = Loose | LeftBy(h: Tid) | ClaimedBy(h: Tid)

  /**
    What the proof tracks of each thread beside the state: the CPU that executes it (-1 for none),
    where it is, who owns its flag, and the frame (with its index, -1 for none) at which it has
    its flag raised on the way to being switched out and back.
  */
  datatype Shadow = Shadow(on: seq<int>, loc: seq<Loc>, pin: seq<Pin>, gate: seq<int>, mark: seq<Frame>)

  /** Frames from raising one's own flag to lowering it. */
  predicate Blocking(f: Frame) {
    f.YieldAdd? || f.StopAdd? || f.Block? || f.Got? || f.Requeue? || f.Claim? || f.Activate?
    || f.Save? || f.Jump? || f.Parked? || f.Land? || f.Landed?
  }

  predicate Nested(f: Frame) { f.YieldRead? || f.YieldCheck? }

  /** What activeThreads says while h executes and its blocking frame is f. */
  function Shown(h: Tid, f: Frame): Tid {
    if f.Save? || f.Jump? then f.it else h
  }

  /** The thread that a frame took off a queue and must put back, pass on or delete. */
  function Held(f: Frame): int {
    match f
    case Got(_, it) => it
    case Requeue(_, it) => it
    case Claim(_, it) => it
    case Activate(_, it) => it
    case Save(_, it) => it
    case Jump(_, it) => it
    case Give(it) => it
    case ReapGot(it, _) => it
    case ReapBack(it, _) => it
    case ReapFree(it, _) => it
    case _ => -1
  }

  /** The routine's `me` is the thread whose stack it runs on, except in a yield that will return at once. */
  predicate SelfOk(h: Tid, above: bool, mark: Frame, f: Frame) {
    match f
    case YieldCheck(me) => me == if above then Shown(h, mark) else h
    case YieldSet(me) => me == h
    case YieldAdd(me) => me == h
    case StopSet(me) => me == h
    case StopAdd(me) => me == h
    case Block(me) => me == h
    case Got(me, _) => me == h
    case Requeue(me, it) => me == h && it != h
    case Claim(me, it) => me == h && it != h
    case Activate(me, it) => me == h && it != h
    case Save(me, it) => me == h && it != h
    case Jump(me, it) => me == h && it != h
    case Land(prev, me) => me == h && prev != h
    case Landed(me) => me == h
    case _ => true
  }

  ghost predicate StackOk(h: Tid, fr: seq<Frame>, gate: int, mark: Frame) {
    && -1 <= gate < |fr| && |fr| > 0 && fr[0] == Run
    && mark == (if gate < 0 then Run else fr[gate])
    && (mark == Parked ==> gate == |fr| - 1)
    && (forall i :: 0 <= i < |fr| ==> (Blocking(fr[i]) <==> i == gate))
    && (forall i :: 0 < i < |fr| ==> fr[i] != Run)
    && (forall i :: 0 <= i < |fr| && 0 <= gate < i ==> Nested(fr[i]))
    && (forall i :: 0 <= i < |fr| ==> SelfOk(h, 0 <= gate < i, mark, fr[i]))
  }

  ghost predicate Stacks(stack: seq<seq<Frame>>, gate: seq<int>, mark: seq<Frame>)
    requires |stack| == |gate| == |mark|
  {
    forall h :: 0 <= h < |stack| ==> StackOk(h, stack[h], gate[h], mark[h])
  }

  ghost predicate Cpus(cur: seq<Tid>, on: seq<int>) {
    && (forall c :: 0 <= c < |cur| ==> cur[c] < |on| && on[cur[c]] == c)
    && (forall t :: 0 <= t < |on| ==> on[t] < 0 || (on[t] < |cur| && cur[on[t]] == t))
  }

  ghost predicate Parks(on: seq<int>, mark: seq<Frame>)
    requires |on| == |mark|
  {
    forall t :: 0 <= t < |on| ==> (on[t] < 0 <==> mark[t] == Parked)
  }

  ghost predicate Saves(saved: seq<bool>, mark: seq<Frame>)
    requires |saved| == |mark|
  {
    forall t :: 0 <= t < |saved| ==> (saved[t] <==> mark[t].Parked? || mark[t].Jump?)
  }

  ghost predicate Flags(flag: seq<bool>, mark: seq<Frame>, pin: seq<Pin>)
    requires |flag| == |mark| == |pin|
  {
    forall t :: 0 <= t < |flag| ==>
      && (flag[t] <==> if mark[t] == Parked then pin[t] != Loose else mark[t] != Run)
      && (mark[t] != Parked ==> pin[t] == Loose)
  }

  /** A thread is handed around exactly from the time it queued itself until another stack jumps to it. */
  ghost predicate Places(mark: seq<Frame>, loc: seq<Loc>)
    requires |mark| == |loc|
  {
    forall t :: 0 <= t < |loc| ==>
      (loc[t] == Running <==> mark[t].Run? || mark[t].YieldAdd? || mark[t].StopAdd? || mark[t].Land? || mark[t].Landed?)
  }

  /** The queue holds exactly the threads that are at l, once each. */
  ghost predicate QueueOk(q: seq<Tid>, loc: seq<Loc>, l: Loc) {
    && (forall i, j :: 0 <= i < j < |q| ==> q[i] != q[j])
    && (forall i :: 0 <= i < |q| ==> q[i] < |loc| && loc[q[i]] == l)
    && (forall t :: 0 <= t < |loc| && loc[t] == l ==> t in q)
  }

  ghost predicate SemsOk(sems: seq<Sem<Tid>>, loc: seq<Loc>) {
    && (forall k :: 0 <= k < |sems| ==> QueueOk(sems[k].waiting, loc, OnSem(k)))
    && (forall t :: 0 <= t < |loc| && loc[t].OnSem? ==> loc[t].k < |sems|)
  }

  ghost predicate Hands(stack: seq<seq<Frame>>, loc: seq<Loc>) {
    && (forall h, i :: 0 <= h < |stack| && 0 <= i < |stack[h]| && Held(stack[h][i]) >= 0 ==>
          Held(stack[h][i]) < |loc| && loc[Held(stack[h][i])] == InHand(h, i))
    && (forall t :: 0 <= t < |loc| && loc[t].InHand? ==>
          var l := loc[t]; l.h < |stack| && l.i < |stack[l.h]| && Held(stack[l.h][l.i]) == t)
  }

  /** A frame that counts on a thread being parked with its flag down. */
  function Clear(f: Frame): int {
    match f
    case Claim(_, it) => it
    case ReapFree(it, _) => it
    case _ => -1
  }

  ghost predicate Clears(stack: seq<seq<Frame>>, mark: seq<Frame>, pin: seq<Pin>)
    requires |mark| == |pin|
  {
    forall h, i :: 0 <= h < |stack| && 0 <= i < |stack[h]| && Clear(stack[h][i]) >= 0 ==>
      Clear(stack[h][i]) < |mark| && mark[Clear(stack[h][i])] == Parked && pin[Clear(stack[h][i])] == Loose
  }

  /** The thread whose flag the CPU at this frame owns, beside its own. */
  function Pinned(f: Frame): int {
    match f
    case Activate(_, it) => it
    case Save(_, it) => it
    case Jump(_, it) => it
    case Land(prev, _) => prev
    case _ => -1
  }

  function PinBy(h: Tid, f: Frame): Pin { if f.Land? then LeftBy(h) else ClaimedBy(h) }

  ghost predicate Pins(mark: seq<Frame>, pin: seq<Pin>)
    requires |mark| == |pin|
  {
    && (forall h :: 0 <= h < |mark| && Pinned(mark[h]) >= 0 ==>
          Pinned(mark[h]) < |pin| && pin[Pinned(mark[h])] == PinBy(h, mark[h]))
    && (forall t :: 0 <= t < |pin| && pin[t] != Loose ==>
          var h := pin[t].h; h < |mark| && Pinned(mark[h]) == t && pin[t] == PinBy(h, mark[h]))
  }

  ghost predicate Acts(cur: seq<Tid>, active: seq<Tid>, mark: seq<Frame>)
    requires |cur| == |active|
  {
    forall c :: 0 <= c < |cur| ==> cur[c] < |mark| && active[c] == Shown(cur[c], mark[cur[c]])
  }

  /** Deleted threads are parked for good; threads that are nowhere were deleted or given up by the reaper. */
  ghost predicate Dead(deleted: seq<bool>, dropped: seq<bool>, loc: seq<Loc>, mark: seq<Frame>, pin: seq<Pin>)
    requires |deleted| == |dropped| == |loc| == |mark| == |pin|
  {
    && (forall t :: 0 <= t < |deleted| && deleted[t] ==> loc[t] == Lost && mark[t] == Parked && pin[t] == Loose)
    && (forall t :: 0 <= t < |loc| && loc[t] == Lost ==> deleted[t] || dropped[t])
  }

  ghost predicate Accounts(sems: seq<Sem<Tid>>) {
    forall k :: 0 <= k < |sems| ==> SemOk(sems[k])
  }

  predicate Fitting(s: State, x: Shadow) {
    && |s.active| == |s.cur|
    && |s.flag| == |s.saved| == |s.deleted| == |s.dropped| == |s.stack|
    && |x.on| == |x.loc| == |x.pin| == |x.gate| == |x.mark| == |s.stack|
  }

  ghost predicate Frames(stack: seq<seq<Frame>>, x: Shadow)
    requires |x.pin| == |x.gate| == |x.mark| == |stack|
  {
    Stacks(stack, x.gate, x.mark) && Hands(stack, x.loc) && Clears(stack, x.mark, x.pin)
  }

  ghost predicate Queues(ready: seq<Tid>, zombies: seq<Tid>, sems: seq<Sem<Tid>>, loc: seq<Loc>) {
    && QueueOk(ready, loc, OnReady)
    && QueueOk(zombies, loc, OnZombies)
    && SemsOk(sems, loc)
    && Accounts(sems)
  }

  ghost predicate Tables(s: State, x: Shadow)
    requires Fitting(s, x)
  {
    && Cpus(s.cur, x.on)
    && Parks(x.on, x.mark)
    && Saves(s.saved, x.mark)
    && Flags(s.flag, x.mark, x.pin)
    && Places(x.mark, x.loc)
    && Pins(x.mark, x.pin)
    && Acts(s.cur, s.active, x.mark)
    && Dead(s.deleted, s.dropped, x.loc, x.mark, x.pin)
  }

  ghost predicate Inv(s: State, x: Shadow) {
    && Fitting(s, x)
    && Frames(s.stack, x)
    && Queues(s.ready, s.zombies, s.sems, x.loc)
    && Tables(s, x)
  }

  // ---- one stack

  lemma PushPlain(h: Tid, fr: seq<Frame>, gate: int, mark: Frame, f: Frame)
    requires StackOk(h, fr, gate, mark) && mark != Parked && !Blocking(f) && f != Run
    requires gate >= 0 ==> Nested(f)
    requires SelfOk(h, gate >= 0, mark, f)
    ensures StackOk(h, fr + [f], gate, mark)
  {
  }

  lemma PushBlock(h: Tid, fr: seq<Frame>, gate: int, f: Frame)
    requires StackOk(h, fr, gate, Run) && gate < 0 && Blocking(f) && f != Parked && SelfOk(h, false, Run, f)
    ensures StackOk(h, fr + [f], |fr|, f)
  {
  }

  lemma SetPlain(h: Tid, fr: seq<Frame>, gate: int, mark: Frame, f: Frame)
    requires StackOk(h, fr, gate, mark) && !Blocking(Last(fr)) && Last(fr) != Run && !Blocking(f) && f != Run
    requires gate >= 0 ==> Nested(f)
    requires SelfOk(h, gate >= 0, mark, f)
    ensures StackOk(h, Popped(fr) + [f], gate, mark)
  {
  }

  lemma SetBlock(h: Tid, fr: seq<Frame>, gate: int, mark: Frame, f: Frame)
    requires StackOk(h, fr, gate, mark) && Last(fr) != Run && Blocking(f)
    requires gate < 0 || gate == |fr| - 1
    requires SelfOk(h, false, Run, f)
    ensures StackOk(h, Popped(fr) + [f], |fr| - 1, f)
  {
  }

  lemma PopPlain(h: Tid, fr: seq<Frame>, gate: int, mark: Frame)
    requires StackOk(h, fr, gate, mark) && !Blocking(Last(fr)) && Last(fr) != Run
    ensures StackOk(h, Popped(fr), gate, mark)
  {
  }

  lemma PopBlock(h: Tid, fr: seq<Frame>, gate: int, mark: Frame)
    requires StackOk(h, fr, gate, mark) && Blocking(Last(fr))
    ensures StackOk(h, Popped(fr), -1, Run)
  {
  }

  /** What the invariant says of the stack that CPU c executes. */
  lemma Facts(s: State, x: Shadow, c: nat)
    requires Inv(s, x) && c < |s.cur|
    ensures var h := s.cur[c];
      && h < |s.stack| && StackOk(h, s.stack[h], x.gate[h], x.mark[h]) && StackOf(s.stack, h) == s.stack[h]
      && x.on[h] == c && x.mark[h] != Parked && x.pin[h] == Loose
      && (s.flag[h] <==> x.mark[h] != Run)
      && s.active[c] == Shown(h, x.mark[h])
      && var k := |s.stack[h]| - 1;
      && k >= 0 && Top(s, c) == s.stack[h][k]
      && (Blocking(Top(s, c)) <==> x.gate[h] == k)
      && (Blocking(Top(s, c)) ==> x.mark[h] == Top(s, c))
      && (x.gate[h] < 0 ==> x.mark[h] == Run)
      && (Top(s, c) != Run ==> k > 0)
      && (x.gate[h] < 0 ==> x.mark[h] == Run)
      && (Top(s, c) != Run ==> k > 0)
      && (x.gate[h] >= 0 && !Blocking(Top(s, c)) ==> Nested(Top(s, c)))
      && SelfOk(h, 0 <= x.gate[h] < k, x.mark[h], Top(s, c))
  {
    hide Hands, Clears, QueueOk, SemsOk, Accounts, Saves, Places, Pins, Dead;
  }

  // ---- the stacks together, when the top of one of them changes

  /** The frames below index k stay, and at most one frame sits there. */
  predicate Edit(fr: seq<Frame>, fr': seq<Frame>, k: nat) {
    && k <= |fr| <= k + 1 && k <= |fr'| <= k + 1
    && fr'[..k] == fr[..k]
  }

  function HeldAt(fr: seq<Frame>, k: nat): int { if k < |fr| then Held(fr[k]) else -1 }

  function ClearAt(fr: seq<Frame>, k: nat): int { if k < |fr| then Clear(fr[k]) else -1 }

  lemma SetStack(stack: seq<seq<Frame>>, gate: seq<int>, mark: seq<Frame>, h: Tid, fr: seq<Frame>, g: int, m: Frame)
    requires |stack| == |gate| == |mark| && h < |stack| && Stacks(stack, gate, mark) && StackOk(h, fr, g, m)
    ensures Stacks(stack[h := fr], gate[h := g], mark[h := m])
  {
    hide StackOk;
  }

  lemma HandsKeep(stack: seq<seq<Frame>>, loc: seq<Loc>, h: Tid, fr: seq<Frame>, k: nat)
    requires h < |stack| && Hands(stack, loc) && Edit(stack[h], fr, k) && HeldAt(fr, k) == HeldAt(stack[h], k)
    ensures Hands(stack[h := fr], loc)
  {
    hide Held;
    EditAt(stack[h], fr, k);
  }

  /** Below index k both stacks hold the same frames. */
  lemma EditAt(fr: seq<Frame>, fr': seq<Frame>, k: nat)
    requires Edit(fr, fr', k)
    ensures forall i :: 0 <= i < k ==> fr'[i] == fr[i]
  {
    forall i | 0 <= i < k ensures fr'[i] == fr[i] {
      assert fr'[i] == fr'[..k][i] && fr[i] == fr[..k][i];
    }
  }

  lemma HandsTake(stack: seq<seq<Frame>>, loc: seq<Loc>, h: Tid, fr: seq<Frame>, k: nat, t: Tid)
    requires h < |stack| && Hands(stack, loc) && Edit(stack[h], fr, k)
    requires HeldAt(stack[h], k) < 0 && k < |fr| && Held(fr[k]) == t < |loc| && !loc[t].InHand?
    ensures Hands(stack[h := fr], loc[t := InHand(h, k)])
  {
    hide Held;
    EditAt(stack[h], fr, k);
  }

  lemma HandsDrop(stack: seq<seq<Frame>>, loc: seq<Loc>, h: Tid, fr: seq<Frame>, k: nat, t: Tid, l: Loc)
    requires h < |stack| && Hands(stack, loc) && Edit(stack[h], fr, k)
    requires HeldAt(stack[h], k) == t < |loc| && HeldAt(fr, k) < 0 && !l.InHand?
    ensures Hands(stack[h := fr], loc[t := l])
  {
    hide Held;
    EditAt(stack[h], fr, k);
  }

  lemma HandsMove(stack: seq<seq<Frame>>, loc: seq<Loc>, t: Tid, l: Loc)
    requires Hands(stack, loc) && t < |loc| && !loc[t].InHand? && !l.InHand?
    ensures Hands(stack, loc[t := l])
  {
    hide Held;
  }

  lemma ClearsKeep(stack: seq<seq<Frame>>, mark: seq<Frame>, pin: seq<Pin>, h: Tid, fr: seq<Frame>, k: nat)
    requires |mark| == |pin| && h < |stack| && Clears(stack, mark, pin) && Edit(stack[h], fr, k)
    requires var t := ClearAt(fr, k); t < 0 || (t < |mark| && mark[t] == Parked && pin[t] == Loose)
    ensures Clears(stack[h := fr], mark, pin)
  {
    hide Clear;
    EditAt(stack[h], fr, k);
  }

  /** A thread that no frame counts on may change. */
  lemma ClearsMark(stack: seq<seq<Frame>>, mark: seq<Frame>, pin: seq<Pin>, t: Tid, m: Frame, p: Pin)
    requires |mark| == |pin| && t < |mark| && Clears(stack, mark, pin)
    requires mark[t] != Parked || pin[t] != Loose
    ensures Clears(stack, mark[t := m], pin[t := p])
  {
    hide Clear;
  }

  /** Only the frame that holds a thread may count on it. */
  lemma ClearsOwn(stack: seq<seq<Frame>>, loc: seq<Loc>, mark: seq<Frame>, pin: seq<Pin>, t: Tid, m: Frame, p: Pin)
    requires |loc| == |mark| == |pin| && t < |mark| && Clears(stack, mark, pin) && Hands(stack, loc)
    requires loc[t].InHand? ==> var l := loc[t]; l.h < |stack| && l.i < |stack[l.h]| && Clear(stack[l.h][l.i]) < 0
    ensures Clears(stack, mark[t := m], pin[t := p])
  {
    forall h, i | 0 <= h < |stack| && 0 <= i < |stack[h]| && Clear(stack[h][i]) >= 0
      ensures Clear(stack[h][i]) != t
    {
      assert Held(stack[h][i]) == Clear(stack[h][i]);
    }
  }

  // ---- the queues

  lemma QueueOther(q: seq<Tid>, loc: seq<Loc>, l: Loc, t: Tid, l': Loc)
    requires QueueOk(q, loc, l) && t < |loc| && loc[t] != l && l' != l
    ensures QueueOk(q, loc[t := l'], l)
  {
  }

  lemma QueueAdd(q: seq<Tid>, loc: seq<Loc>, l: Loc, t: Tid)
    requires QueueOk(q, loc, l) && t < |loc| && loc[t] != l
    ensures QueueOk(q + [t], loc[t := l], l)
  {
    forall u | 0 <= u < |loc| && loc[t := l][u] == l ensures u in q + [t] {
      assert u == t || u in q;
    }
  }

  lemma QueueTake(q: seq<Tid>, loc: seq<Loc>, l: Loc, l': Loc)
    requires QueueOk(q, loc, l) && q != [] && l' != l
    ensures q[0] < |loc| && loc[q[0]] == l && QueueOk(q[1..], loc[q[0] := l'], l)
  {
    forall u | 0 <= u < |loc| && loc[q[0] := l'][u] == l ensures u in q[1..] {
      assert u in q && u != q[0];
    }
  }

  lemma SemsOther(sems: seq<Sem<Tid>>, loc: seq<Loc>, t: Tid, l: Loc)
    requires SemsOk(sems, loc) && t < |loc| && !loc[t].OnSem? && !l.OnSem?
    ensures SemsOk(sems, loc[t := l])
  {
    hide QueueOk;
    forall k | 0 <= k < |sems| ensures QueueOk(sems[k].waiting, loc[t := l], OnSem(k)) {
      QueueOther(sems[k].waiting, loc, OnSem(k), t, l);
    }
  }

  lemma SemsAdd(sems: seq<Sem<Tid>>, loc: seq<Loc>, k: nat, t: Tid, m: Sem<Tid>)
    requires SemsOk(sems, loc) && t < |loc| && !loc[t].OnSem? && k < |sems| && m.waiting == sems[k].waiting + [t]
    ensures SemsOk(sems[k := m], loc[t := OnSem(k)])
  {
    hide QueueOk;
    forall j | 0 <= j < |sems| ensures QueueOk(sems[k := m][j].waiting, loc[t := OnSem(k)], OnSem(j)) {
      if j == k {
        QueueAdd(sems[k].waiting, loc, OnSem(k), t);
      } else {
        QueueOther(sems[j].waiting, loc, OnSem(j), t, OnSem(k));
      }
    }
  }

  lemma SemsTake(sems: seq<Sem<Tid>>, loc: seq<Loc>, k: nat, m: Sem<Tid>, l: Loc)
    requires SemsOk(sems, loc) && k < |sems| && sems[k].waiting != [] && m.waiting == sems[k].waiting[1..] && !l.OnSem?
    ensures var t := sems[k].waiting[0];
      t < |loc| && loc[t] == OnSem(k) && SemsOk(sems[k := m], loc[t := l])
  {
    hide QueueOk;
    var t := sems[k].waiting[0];
    QueueTake(sems[k].waiting, loc, OnSem(k), l);
    forall j | 0 <= j < |sems| ensures QueueOk(sems[k := m][j].waiting, loc[t := l], OnSem(j)) {
      if j != k { QueueOther(sems[j].waiting, loc, OnSem(j), t, l); }
    }
  }

  lemma SemsSame(sems: seq<Sem<Tid>>, loc: seq<Loc>, k: nat, m: Sem<Tid>)
    requires SemsOk(sems, loc) && k < |sems| && m.waiting == sems[k].waiting
    ensures SemsOk(sems[k := m], loc)
  {
    hide QueueOk;
  }

  // ---- the steps

  /** A step that changes only the top of one stack, and hands nothing around. */
  lemma PlainStep(s: State, x: Shadow, h: Tid, fr: seq<Frame>, k: nat)
    requires Inv(s, x) && h < |s.stack| && StackOk(h, fr, x.gate[h], x.mark[h])
    requires Edit(s.stack[h], fr, k) && HeldAt(fr, k) == HeldAt(s.stack[h], k)
    requires var t := ClearAt(fr, k); t < 0 || (t < |s.stack| && x.mark[t] == Parked && x.pin[t] == Loose)
    ensures Inv(s.(stack := s.stack[h := fr]), x)
  {
    hide StackOk, Stacks, Hands, Clears, QueueOk, SemsOk, Accounts, Cpus, Parks, Saves, Flags, Places, Pins, Acts, Dead;
    SetStack(s.stack, x.gate, x.mark, h, fr, x.gate[h], x.mark[h]);
    HandsKeep(s.stack, x.loc, h, fr, k);
    ClearsKeep(s.stack, x.mark, x.pin, h, fr, k);
    assert x.gate[h := x.gate[h]] == x.gate && x.mark[h := x.mark[h]] == x.mark;
  }

  /** The frames after a step of stack h that also moves threads between hands and queues. */
  lemma FramesStep(stack: seq<seq<Frame>>, x: Shadow, h: Tid, fr: seq<Frame>, k: nat, g: int, m: Frame, loc: seq<Loc>)
    requires |x.pin| == |x.gate| == |x.mark| == |stack| && h < |stack| && Frames(stack, x)
    requires x.mark[h] != Parked || x.pin[h] != Loose
    requires StackOk(h, fr, g, m) && Edit(stack[h], fr, k) && Hands(stack[h := fr], loc)
    requires var t := ClearAt(fr, k); t < 0 || (t < |stack| && t != h && x.mark[t] == Parked && x.pin[t] == Loose)
    ensures Frames(stack[h := fr], x.(gate := x.gate[h := g], mark := x.mark[h := m], loc := loc))
  {
    hide StackOk, Stacks, Hands, Clears, Edit;
    SetStack(stack, x.gate, x.mark, h, fr, g, m);
    ClearsKeep(stack, x.mark, x.pin, h, fr, k);
    ClearsMark(stack[h := fr], x.mark, x.pin, h, m, x.pin[h]);
    assert x.pin[h := x.pin[h]] == x.pin;
  }

  lemma SetEdit(fr: seq<Frame>, f: Frame)
    requires |fr| > 0
    ensures Edit(fr, Popped(fr) + [f], |fr| - 1)
  {
  }

  lemma PopEdit(fr: seq<Frame>)
    requires |fr| > 0
    ensures Edit(fr, Popped(fr), |fr| - 1)
  {
  }

  lemma PushEdit(fr: seq<Frame>, f: Frame)
    ensures Edit(fr, fr + [f], |fr|)
  {
  }

  lemma OnYieldSet(s: State, x: Shadow, c: nat, me: Tid) returns (x': Shadow)
    requires Inv(s, x) && c < |s.cur| && Top(s, c) == YieldSet(me)
    ensures Inv(Continue(s, c, YieldSet(me)), x')
  {
    hide StackOk, Stacks, Hands, Clears, QueueOk, SemsOk, Accounts, Tables, Edit;
    Facts(s, x, c);
    var h := s.cur[c];
    var fr, k := s.stack[h], |s.stack[h]| - 1;
    x' := x.(gate := x.gate[h := k], mark := x.mark[h := YieldAdd(me)]);
    SetBlock(h, fr, x.gate[h], x.mark[h], YieldAdd(me));
    SetEdit(fr, YieldAdd(me));
    HandsKeep(s.stack, x.loc, h, Popped(fr) + [YieldAdd(me)], k);
    FramesStep(s.stack, x, h, Popped(fr) + [YieldAdd(me)], k, k, YieldAdd(me), x.loc);
    TablesYieldSet(s, x, c, h, me, x');
  }

  lemma TablesYieldSet(s: State, x: Shadow, c: nat, h: Tid, me: Tid, x': Shadow)
    requires Fitting(s, x) && Tables(s, x) && c < |s.cur| && h == s.cur[c] && h < |s.stack| && x.mark[h] != Parked
    requires me == h && x.mark[h] == Run && x.pin[h] == Loose
    requires x' == x.(gate := x'.gate, mark := x.mark[h := YieldAdd(me)]) && |x'.gate| == |x.gate|
    ensures var s' := Continue(s, c, YieldSet(me)); Fitting(s', x') && Tables(s', x')
  {
    hide Pins, Acts;
    PinsSame(x.mark, x.pin, h, YieldAdd(me));
    ActsSame(s.cur, s.active, x.mark, h, YieldAdd(me));
  }

  lemma OnStopSet(s: State, x: Shadow, c: nat, me: Tid) returns (x': Shadow)
    requires Inv(s, x) && c < |s.cur| && Top(s, c) == StopSet(me)
    ensures Inv(Continue(s, c, StopSet(me)), x')
  {
    hide StackOk, Stacks, Hands, Clears, QueueOk, SemsOk, Accounts, Tables, Edit;
    Facts(s, x, c);
    var h := s.cur[c];
    var fr, k := s.stack[h], |s.stack[h]| - 1;
    x' := x.(gate := x.gate[h := k], mark := x.mark[h := StopAdd(me)]);
    SetBlock(h, fr, x.gate[h], x.mark[h], StopAdd(me));
    SetEdit(fr, StopAdd(me));
    HandsKeep(s.stack, x.loc, h, Popped(fr) + [StopAdd(me)], k);
    FramesStep(s.stack, x, h, Popped(fr) + [StopAdd(me)], k, k, StopAdd(me), x.loc);
    TablesStopSet(s, x, c, h, me, x');
  }

  lemma TablesStopSet(s: State, x: Shadow, c: nat, h: Tid, me: Tid, x': Shadow)
    requires Fitting(s, x) && Tables(s, x) && c < |s.cur| && h == s.cur[c] && h < |s.stack| && x.mark[h] != Parked
    requires me == h && x.mark[h] == Run && x.pin[h] == Loose
    requires x' == x.(gate := x'.gate, mark := x.mark[h := StopAdd(me)]) && |x'.gate| == |x.gate|
    ensures var s' := Continue(s, c, StopSet(me)); Fitting(s', x') && Tables(s', x')
  {
    hide Pins, Acts;
    PinsSame(x.mark, x.pin, h, StopAdd(me));
    ActsSame(s.cur, s.active, x.mark, h, StopAdd(me));
  }

  lemma OnYieldAdd(s: State, x: Shadow, c: nat, me: Tid) returns (x': Shadow)
    requires Inv(s, x) && c < |s.cur| && Top(s, c) == YieldAdd(me)
    ensures Inv(Continue(s, c, YieldAdd(me)), x')
  {
    hide StackOk, Stacks, Hands, Clears, QueueOk, SemsOk, Accounts, Tables, Edit;
    Facts(s, x, c);
    var h := s.cur[c];
    var fr, k := s.stack[h], |s.stack[h]| - 1;
    x' := x.(gate := x.gate[h := k], mark := x.mark[h := Block(me)], loc := x.loc[h := OnReady]);
    RunningAt(s, x, h);
    SetBlock(h, fr, x.gate[h], x.mark[h], Block(me));
    SetEdit(fr, Block(me));
    HandsKeep(s.stack, x.loc, h, Popped(fr) + [Block(me)], k);
    HandsMove(s.stack[h := Popped(fr) + [Block(me)]], x.loc, h, OnReady);
    FramesStep(s.stack, x, h, Popped(fr) + [Block(me)], k, k, Block(me), x.loc[h := OnReady]);
    QueueAdd(s.ready, x.loc, OnReady, me);
    QueueOther(s.zombies, x.loc, OnZombies, me, OnReady);
    SemsOther(s.sems, x.loc, me, OnReady);
    TablesYieldAdd(s, x, c, h, me, x');
  }

  lemma TablesYieldAdd(s: State, x: Shadow, c: nat, h: Tid, me: Tid, x': Shadow)
    requires Fitting(s, x) && Tables(s, x) && c < |s.cur| && h == s.cur[c] && h < |s.stack| && x.mark[h] != Parked
    requires me == h && x.mark[h] == YieldAdd(me) && x.pin[h] == Loose
    requires x' == x.(gate := x'.gate, mark := x.mark[h := Block(me)], loc := x.loc[h := OnReady])
    requires |x'.gate| == |x.gate|
    ensures var s' := Continue(s, c, YieldAdd(me)); Fitting(s', x') && Tables(s', x')
  {
    hide Pins, Acts;
    PinsSame(x.mark, x.pin, h, Block(me));
    ActsSame(s.cur, s.active, x.mark, h, Block(me));
  }

  lemma OnStopAdd(s: State, x: Shadow, c: nat, me: Tid) returns (x': Shadow)
    requires Inv(s, x) && c < |s.cur| && Top(s, c) == StopAdd(me)
    ensures Inv(Continue(s, c, StopAdd(me)), x')
  {
    hide StackOk, Stacks, Hands, Clears, QueueOk, SemsOk, Accounts, Tables, Edit;
    Facts(s, x, c);
    var h := s.cur[c];
    var fr, k := s.stack[h], |s.stack[h]| - 1;
    x' := x.(gate := x.gate[h := k], mark := x.mark[h := Block(me)], loc := x.loc[h := OnZombies]);
    RunningAt(s, x, h);
    SetBlock(h, fr, x.gate[h], x.mark[h], Block(me));
    SetEdit(fr, Block(me));
    HandsKeep(s.stack, x.loc, h, Popped(fr) + [Block(me)], k);
    HandsMove(s.stack[h := Popped(fr) + [Block(me)]], x.loc, h, OnZombies);
    FramesStep(s.stack, x, h, Popped(fr) + [Block(me)], k, k, Block(me), x.loc[h := OnZombies]);
    QueueAdd(s.zombies, x.loc, OnZombies, me);
    QueueOther(s.ready, x.loc, OnReady, me, OnZombies);
    SemsOther(s.sems, x.loc, me, OnZombies);
    TablesStopAdd(s, x, c, h, me, x');
  }

  lemma TablesStopAdd(s: State, x: Shadow, c: nat, h: Tid, me: Tid, x': Shadow)
    requires Fitting(s, x) && Tables(s, x) && c < |s.cur| && h == s.cur[c] && h < |s.stack| && x.mark[h] != Parked
    requires me == h && x.mark[h] == StopAdd(me) && x.pin[h] == Loose
    requires x' == x.(gate := x'.gate, mark := x.mark[h := Block(me)], loc := x.loc[h := OnZombies])
    requires |x'.gate| == |x.gate|
    ensures var s' := Continue(s, c, StopAdd(me)); Fitting(s', x') && Tables(s', x')
  {
    hide Pins, Acts;
    PinsSame(x.mark, x.pin, h, Block(me));
    ActsSame(s.cur, s.active, x.mark, h, Block(me));
  }

  lemma RunningAt(s: State, x: Shadow, h: Tid)
    requires Inv(s, x) && h < |s.stack|
    ensures x.loc[h] == Running <==>
      x.mark[h].Run? || x.mark[h].YieldAdd? || x.mark[h].StopAdd? || x.mark[h].Land? || x.mark[h].Landed?
    ensures x.loc[h] == Running ==> !s.deleted[h]
  {
    hide Frames, Queues, Cpus, Parks, Saves, Flags, Pins, Acts;
  }

  /** A thread whose flag is down while it is handed around is parked, and nobody owns its flag. */
  lemma Unflagged(s: State, x: Shadow, t: Tid)
    requires Inv(s, x) && t < |s.stack| && !IsSet(s.flag, t) && x.loc[t] != Running
    ensures x.mark[t] == Parked && x.pin[t] == Loose
  {
    hide Frames, Queues, Cpus, Parks, Saves, Pins, Acts, Dead;
  }

  /** The thread that the top frame holds. */
  lemma HeldFacts(s: State, x: Shadow, c: nat)
    requires Inv(s, x) && c < |s.cur| && Held(Top(s, c)) >= 0
    ensures var t := Held(Top(s, c));
      && t < |s.stack| && x.loc[t] == InHand(s.cur[c], |s.stack[s.cur[c]]| - 1) && !s.deleted[t]
      && (Clear(Top(s, c)) >= 0 ==> x.mark[t] == Parked && x.pin[t] == Loose)
      && (Pinned(Top(s, c)) >= 0 ==> x.mark[t] == Parked && x.pin[t] == ClaimedBy(s.cur[c]))
  {
    hide Stacks, StackOk, Queues, Cpus, Parks, Saves, Places, Acts;
    Facts(s, x, c);
  }

  lemma FramesPin(stack: seq<seq<Frame>>, x: Shadow, t: Tid, p: Pin)
    requires |x.loc| == |x.pin| == |x.gate| == |x.mark| == |stack| && t < |stack| && Frames(stack, x)
    requires || x.mark[t] != Parked || x.pin[t] != Loose
             || (x.loc[t].InHand? &&
                 var l := x.loc[t]; l.h < |stack| && l.i < |stack[l.h]| && Clear(stack[l.h][l.i]) < 0)
    ensures Frames(stack, x.(pin := x.pin[t := p]))
  {
    hide Stacks, Hands, Clears;
    assert x.mark[t := x.mark[t]] == x.mark;
    if x.mark[t] != Parked || x.pin[t] != Loose {
      ClearsMark(stack, x.mark, x.pin, t, x.mark[t], p);
    } else {
      ClearsOwn(stack, x.loc, x.mark, x.pin, t, x.mark[t], p);
    }
  }

  predicate SameCpus(s: State, s': State) {
    s'.cur == s.cur && s'.active == s.active && s'.flag == s.flag && s'.saved == s.saved
    && |s'.stack| == |s.stack| == |s'.deleted| == |s'.dropped|
  }

  predicate SameTables(s: State, s': State) {
    SameCpus(s, s') && s'.deleted == s.deleted && s'.dropped == s.dropped
  }

  /** A thread that is handed around goes to another queue or hand, or is given up or deleted. */
  lemma TablesHand(s: State, x: Shadow, s': State, t: Tid, l: Loc)
    requires Fitting(s, x) && Tables(s, x) && SameCpus(s, s')
    requires t < |s.stack| && x.loc[t] != Running && l != Running
    requires Dead(s'.deleted, s'.dropped, x.loc[t := l], x.mark, x.pin)
    ensures var x' := x.(loc := x.loc[t := l]); Fitting(s', x') && Tables(s', x')
  {
    hide Cpus, Parks, Saves, Flags, Pins, Acts, Dead;
  }

  lemma DeadMove(s: State, x: Shadow, t: Tid, l: Loc)
    requires Fitting(s, x) && Tables(s, x) && t < |s.stack| && l != Lost && x.loc[t] != Lost
    ensures Dead(s.deleted, s.dropped, x.loc[t := l], x.mark, x.pin)
  {
    hide Cpus, Parks, Saves, Flags, Pins, Acts, Places;
  }

  predicate Spinning(f: Frame) { f.Block? || f.Got? || f.Requeue? || f.Claim? }

  /** The thread at the top moves on within the loop of block. */
  lemma TablesSpin(s: State, x: Shadow, s': State, h: Tid, k: nat, f: Frame)
    requires Fitting(s, x) && Tables(s, x) && SameTables(s, s')
    requires h < |s.stack| && Spinning(x.mark[h]) && Spinning(f)
    ensures var x' := x.(gate := x.gate[h := k], mark := x.mark[h := f]); Fitting(s', x') && Tables(s', x')
  {
    hide Pins, Acts;
    PinsSame(x.mark, x.pin, h, f);
    ActsSame(s.cur, s.active, x.mark, h, f);
  }

  lemma OnBlock(s: State, x: Shadow, c: nat, me: Tid) returns (x': Shadow)
    requires Inv(s, x) && c < |s.cur| && Top(s, c) == Block(me)
    ensures Inv(Continue(s, c, Block(me)), x')
  {
    hide StackOk, Stacks, Hands, Clears, QueueOk, SemsOk, Accounts, Tables, Edit;
    Facts(s, x, c);
    var h := s.cur[c];
    var fr, k := s.stack[h], |s.stack[h]| - 1;
    if s.ready == [] {
      return x;
    }
    var it := s.ready[0];
    var f, l := Got(me, it), InHand(h, k);
    QueueTake(s.ready, x.loc, OnReady, l);
    QueueOther(s.zombies, x.loc, OnZombies, it, l);
    SemsOther(s.sems, x.loc, it, l);
    SetBlock(h, fr, x.gate[h], x.mark[h], f);
    SetEdit(fr, f);
    HandsTake(s.stack, x.loc, h, Popped(fr) + [f], k, it);
    FramesStep(s.stack, x, h, Popped(fr) + [f], k, k, f, x.loc[it := l]);
    var s', x1 := Continue(s, c, Block(me)), x.(loc := x.loc[it := l]);
    DeadMove(s, x, it, l);
    TablesHand(s, x, s', it, l);
    TablesSpin(s', x1, s', h, k, f);
    x' := x1.(gate := x.gate[h := k], mark := x.mark[h := f]);
  }

  lemma OnGotOther(s: State, x: Shadow, c: nat, me: Tid, it: Tid) returns (x': Shadow)
    requires Inv(s, x) && c < |s.cur| && Top(s, c) == Got(me, it)
    requires it != me
    ensures Inv(Continue(s, c, Got(me, it)), x')
  {
    hide StackOk, Stacks, Hands, Clears, QueueOk, SemsOk, Accounts, Tables, Edit;
    Facts(s, x, c);
    var h := s.cur[c];
    var fr, k := s.stack[h], |s.stack[h]| - 1;
    HeldFacts(s, x, c);
    var f := if IsSet(s.flag, it) then Requeue(me, it) else Claim(me, it);
    if !IsSet(s.flag, it) {
      Unflagged(s, x, it);
    }
    SetBlock(h, fr, x.gate[h], x.mark[h], f);
    SetEdit(fr, f);
    HandsKeep(s.stack, x.loc, h, Popped(fr) + [f], k);
    FramesStep(s.stack, x, h, Popped(fr) + [f], k, k, f, x.loc);
    TablesSpin(s, x, Continue(s, c, Got(me, it)), h, k, f);
    x' := x.(gate := x.gate[h := k], mark := x.mark[h := f]);
  }

  lemma OnRequeue(s: State, x: Shadow, c: nat, me: Tid, it: Tid) returns (x': Shadow)
    requires Inv(s, x) && c < |s.cur| && Top(s, c) == Requeue(me, it)
    ensures Inv(Continue(s, c, Requeue(me, it)), x')
  {
    hide StackOk, Stacks, Hands, Clears, QueueOk, SemsOk, Accounts, Tables, Edit;
    Facts(s, x, c);
    var h := s.cur[c];
    var fr, k := s.stack[h], |s.stack[h]| - 1;
    HeldFacts(s, x, c);
    var f := Block(me);
    SetBlock(h, fr, x.gate[h], x.mark[h], f);
    SetEdit(fr, f);
    HandsDrop(s.stack, x.loc, h, Popped(fr) + [f], k, it, OnReady);
    FramesStep(s.stack, x, h, Popped(fr) + [f], k, k, f, x.loc[it := OnReady]);
    QueueAdd(s.ready, x.loc, OnReady, it);
    QueueOther(s.zombies, x.loc, OnZombies, it, OnReady);
    SemsOther(s.sems, x.loc, it, OnReady);
    var s', x1 := Continue(s, c, Requeue(me, it)), x.(loc := x.loc[it := OnReady]);
    DeadMove(s, x, it, OnReady);
    TablesHand(s, x, s', it, OnReady);
    TablesSpin(s', x1, s', h, k, f);
    x' := x1.(gate := x.gate[h := k], mark := x.mark[h := f]);
  }

  lemma OnGotSelf(s: State, x: Shadow, c: nat, me: Tid) returns (x': Shadow)
    requires Inv(s, x) && c < |s.cur| && Top(s, c) == Got(me, me)
    ensures Inv(Continue(s, c, Got(me, me)), x')
  {
    hide StackOk, Stacks, Hands, Clears, QueueOk, SemsOk, Accounts, Tables, Edit;
    Facts(s, x, c);
    var h := s.cur[c];
    var fr, k := s.stack[h], |s.stack[h]| - 1;
    HeldFacts(s, x, c);
    PopBlock(h, fr, x.gate[h], x.mark[h]);
    PopEdit(fr);
    HandsDrop(s.stack, x.loc, h, Popped(fr), k, me, Running);
    FramesStep(s.stack, x, h, Popped(fr), k, -1, Run, x.loc[h := Running]);
    QueueOther(s.ready, x.loc, OnReady, me, Running);
    QueueOther(s.zombies, x.loc, OnZombies, me, Running);
    SemsOther(s.sems, x.loc, me, Running);
    x' := x.(gate := x.gate[h := -1], mark := x.mark[h := Run], loc := x.loc[h := Running]);
    TablesGotSelf(s, x, c, h, me, x');
  }

  lemma TablesGotSelf(s: State, x: Shadow, c: nat, h: Tid, me: Tid, x': Shadow)
    requires Fitting(s, x) && Tables(s, x) && c < |s.cur| && h == s.cur[c] && h < |s.stack| && x.mark[h] != Parked
    requires me == h && x.mark[h] == Got(me, me) && !s.deleted[h]
    requires x' == x.(gate := x'.gate, mark := x.mark[h := Run], loc := x.loc[h := Running]) && |x'.gate| == |x.gate|
    ensures var s' := Continue(s, c, Got(me, me)); Fitting(s', x') && Tables(s', x')
  {
    hide Pins, Acts;
    PinsSame(x.mark, x.pin, h, Run);
    ActsSame(s.cur, s.active, x.mark, h, Run);
  }

  lemma OnClaim(s: State, x: Shadow, c: nat, me: Tid, it: Tid) returns (x': Shadow)
    requires Inv(s, x) && c < |s.cur| && Top(s, c) == Claim(me, it)
    ensures Inv(Continue(s, c, Claim(me, it)), x')
  {
    hide StackOk, Stacks, Hands, Clears, QueueOk, SemsOk, Accounts, Tables, Edit;
    Facts(s, x, c);
    var h := s.cur[c];
    var fr, k := s.stack[h], |s.stack[h]| - 1;
    HeldFacts(s, x, c);
    var f := Activate(me, it);
    SetBlock(h, fr, x.gate[h], x.mark[h], f);
    SetEdit(fr, f);
    HandsKeep(s.stack, x.loc, h, Popped(fr) + [f], k);
    FramesStep(s.stack, x, h, Popped(fr) + [f], k, k, f, x.loc);
    var x1 := x.(gate := x.gate[h := k], mark := x.mark[h := f]);
    FramesPin(s.stack[h := Popped(fr) + [f]], x1, it, ClaimedBy(h));
    x' := x1.(pin := x.pin[it := ClaimedBy(h)]);
    TablesClaim(s, x, c, h, me, it, x');
  }

  lemma TablesClaim(s: State, x: Shadow, c: nat, h: Tid, me: Tid, it: Tid, x': Shadow)
    requires Fitting(s, x) && Tables(s, x) && c < |s.cur| && h == s.cur[c] && h < |s.stack| && x.mark[h] != Parked
    requires me == h && it != h && it < |s.stack| && x.mark[h] == Claim(me, it)
    requires x.mark[it] == Parked && x.pin[it] == Loose && !s.deleted[it]
    requires x' == x.(gate := x'.gate, mark := x.mark[h := Activate(me, it)], pin := x.pin[it := ClaimedBy(h)])
    requires |x'.gate| == |x.gate|
    ensures var s' := Continue(s, c, Claim(me, it)); Fitting(s', x') && Tables(s', x')
  {
    hide Pins;
    PinsClaim(x.mark, x.pin, h, me, it);
  }

  lemma OnActivate(s: State, x: Shadow, c: nat, me: Tid, it: Tid) returns (x': Shadow)
    requires Inv(s, x) && c < |s.cur| && Top(s, c) == Activate(me, it)
    ensures Inv(Continue(s, c, Activate(me, it)), x')
  {
    hide StackOk, Stacks, Hands, Clears, QueueOk, SemsOk, Accounts, Tables, Edit;
    Facts(s, x, c);
    var h := s.cur[c];
    var fr, k := s.stack[h], |s.stack[h]| - 1;
    var f := Save(me, it);
    SetBlock(h, fr, x.gate[h], x.mark[h], f);
    SetEdit(fr, f);
    HandsKeep(s.stack, x.loc, h, Popped(fr) + [f], k);
    FramesStep(s.stack, x, h, Popped(fr) + [f], k, k, f, x.loc);
    x' := x.(gate := x.gate[h := k], mark := x.mark[h := f]);
    TablesActivate(s, x, c, h, me, it, x');
  }

  lemma TablesActivate(s: State, x: Shadow, c: nat, h: Tid, me: Tid, it: Tid, x': Shadow)
    requires Fitting(s, x) && Tables(s, x) && c < |s.cur| && h == s.cur[c] && h < |s.stack| && x.mark[h] != Parked
    requires me == h && it != h && x.mark[h] == Activate(me, it)
    requires x' == x.(gate := x'.gate, mark := x.mark[h := Save(me, it)]) && |x'.gate| == |x.gate|
    ensures var s' := Continue(s, c, Activate(me, it)); Fitting(s', x') && Tables(s', x')
  {
    hide Pins;
    PinsSame(x.mark, x.pin, h, Save(me, it));
  }

  lemma OnSave(s: State, x: Shadow, c: nat, me: Tid, it: Tid) returns (x': Shadow)
    requires Inv(s, x) && c < |s.cur| && Top(s, c) == Save(me, it)
    ensures Inv(Continue(s, c, Save(me, it)), x')
  {
    hide StackOk, Stacks, Hands, Clears, QueueOk, SemsOk, Accounts, Tables, Edit;
    Facts(s, x, c);
    var h := s.cur[c];
    var fr, k := s.stack[h], |s.stack[h]| - 1;
    var f := Jump(me, it);
    SetBlock(h, fr, x.gate[h], x.mark[h], f);
    SetEdit(fr, f);
    HandsKeep(s.stack, x.loc, h, Popped(fr) + [f], k);
    FramesStep(s.stack, x, h, Popped(fr) + [f], k, k, f, x.loc);
    x' := x.(gate := x.gate[h := k], mark := x.mark[h := f]);
    TablesSave(s, x, c, h, me, it, x');
  }

  lemma TablesSave(s: State, x: Shadow, c: nat, h: Tid, me: Tid, it: Tid, x': Shadow)
    requires Fitting(s, x) && Tables(s, x) && c < |s.cur| && h == s.cur[c] && h < |s.stack| && x.mark[h] != Parked
    requires me == h && it != h && x.mark[h] == Save(me, it)
    requires x' == x.(gate := x'.gate, mark := x.mark[h := Jump(me, it)]) && |x'.gate| == |x.gate|
    ensures var s' := Continue(s, c, Save(me, it)); Fitting(s', x') && Tables(s', x')
  {
    hide Pins, Acts;
    PinsSame(x.mark, x.pin, h, Jump(me, it));
    ActsSame(s.cur, s.active, x.mark, h, Jump(me, it));
  }

  lemma OnJump(s: State, x: Shadow, c: nat, me: Tid, it: Tid) returns (x': Shadow)
    requires Inv(s, x) && c < |s.cur| && Top(s, c) == Jump(me, it)
    ensures Inv(Continue(s, c, Jump(me, it)), x')
  {
    hide Stacks, Hands, Clears, QueueOk, SemsOk, Accounts, Tables, Frames, StackOk, Edit;
    Facts(s, x, c);
    HeldFacts(s, x, c);
    ParkedTop(s, x, it);
    var h := s.cur[c];
    x' := JumpFrames(s, x, c, h, it);
    QueueOther(s.ready, x.loc, OnReady, it, Running);
    QueueOther(s.zombies, x.loc, OnZombies, it, Running);
    SemsOther(s.sems, x.loc, it, Running);
    TablesJump(s, x, c, h, me, it, x');
  }

  /** Stack h is left parked, and the parked stack of `it` goes on. */
  lemma JumpFrames(s: State, x: Shadow, c: nat, h: Tid, it: Tid) returns (x': Shadow)
    requires Fitting(s, x) && Frames(s.stack, x) && h < |s.stack| && it < |s.stack| && h != it
    requires StackOk(h, s.stack[h], x.gate[h], x.mark[h]) && |s.stack[h]| > 0
    requires Last(s.stack[h]) == Jump(h, it) == x.mark[h] && x.gate[h] == |s.stack[h]| - 1
    requires StackOk(it, s.stack[it], x.gate[it], Parked) && |s.stack[it]| > 0
    requires Last(s.stack[it]) == Parked == x.mark[it] && x.gate[it] == |s.stack[it]| - 1
    requires x.pin[it] == ClaimedBy(h) && x.loc[it] == InHand(h, |s.stack[h]| - 1)
    ensures x' == x.(gate := x'.gate, mark := x.mark[h := Parked][it := Land(h, it)],
                     pin := x.pin[h := LeftBy(it)][it := Loose], loc := x.loc[it := Running],
                     on := x.on[h := -1][it := c])
    ensures |x'.gate| == |x.gate|
    ensures Frames(SetTop(SetTop(s.stack, h, Parked), it, Land(h, it)), x')
  {
    hide StackOk, Stacks, Hands, Clears, Edit;
    var fr, k := s.stack[h], |s.stack[h]| - 1;
    var x0 := x.(pin := x.pin[h := LeftBy(it)]);
    FramesPin(s.stack, x, h, LeftBy(it));
    SetBlock(h, fr, x.gate[h], x.mark[h], Parked);
    SetEdit(fr, Parked);
    var stack1 := s.stack[h := Popped(fr) + [Parked]];
    HandsDrop(s.stack, x.loc, h, Popped(fr) + [Parked], k, it, Running);
    FramesStep(s.stack, x0, h, Popped(fr) + [Parked], k, k, Parked, x.loc[it := Running]);
    var x1 := x0.(gate := x.gate[h := k], mark := x.mark[h := Parked], loc := x.loc[it := Running]);
    var x2 := LandFrames(stack1, x1, h, it);
    x' := x2.(on := x.on[h := -1][it := c]);
  }

  lemma LandFrames(stack: seq<seq<Frame>>, x: Shadow, h: Tid, it: Tid) returns (x': Shadow)
    requires |x.loc| == |x.pin| == |x.gate| == |x.mark| == |stack| && Frames(stack, x) && it < |stack| && h != it
    requires StackOk(it, stack[it], x.gate[it], Parked) && |stack[it]| > 0
    requires Last(stack[it]) == Parked == x.mark[it] && x.gate[it] == |stack[it]| - 1 && x.pin[it] != Loose
    ensures x' == x.(gate := x'.gate, mark := x.mark[it := Land(h, it)], pin := x.pin[it := Loose])
    ensures |x'.gate| == |x.gate| && Frames(SetTop(stack, it, Land(h, it)), x')
  {
    hide StackOk, Stacks, Hands, Clears, Edit;
    var fr, k, f := stack[it], |stack[it]| - 1, Land(h, it);
    SetBlock(it, fr, x.gate[it], Parked, f);
    SetEdit(fr, f);
    HandsKeep(stack, x.loc, it, Popped(fr) + [f], k);
    FramesStep(stack, x, it, Popped(fr) + [f], k, k, f, x.loc);
    var x2 := x.(gate := x.gate[it := k], mark := x.mark[it := f]);
    FramesPin(stack[it := Popped(fr) + [f]], x2, it, Loose);
    x' := x2.(pin := x.pin[it := Loose]);
  }

  lemma ParkedTop(s: State, x: Shadow, t: Tid)
    requires Inv(s, x) && t < |s.stack| && x.mark[t] == Parked
    ensures StackOk(t, s.stack[t], x.gate[t], Parked) && |s.stack[t]| > 0 && Last(s.stack[t]) == Parked
    ensures x.gate[t] == |s.stack[t]| - 1 && x.on[t] < 0
  {
    hide Hands, Clears, Queues, Cpus, Saves, Flags, Places, Pins, Acts, Dead;
  }

  lemma TablesJump(s: State, x: Shadow, c: nat, h: Tid, me: Tid, it: Tid, x': Shadow)
    requires Fitting(s, x) && Tables(s, x) && c < |s.cur| && h == s.cur[c] && h < |s.stack| && x.mark[h] != Parked
    requires me == h && it != h && it < |s.stack| && x.mark[h] == Jump(me, it) && x.mark[it] == Parked
    requires x.pin[it] == ClaimedBy(h) && x.on[it] < 0 && x.on[h] == c && !s.deleted[it]
    requires x' == x.(gate := x'.gate, mark := x.mark[h := Parked][it := Land(me, it)],
                      pin := x.pin[h := LeftBy(it)][it := Loose],
      loc := x.loc[it := Running], on := x.on[h := -1][it := c]) && |x'.gate| == |x.gate|
    ensures var s' := Continue(s, c, Jump(me, it)); Fitting(s', x') && Tables(s', x')
  {
    hide Pins, Cpus, Acts;
    assert x.pin[h] == Loose;
    PinsJump(x.mark, x.pin, h, me, it);
    CpusJump(s, x, c, h, me, it);
  }

  lemma OnLand(s: State, x: Shadow, c: nat, prev: Tid, me: Tid) returns (x': Shadow)
    requires Inv(s, x) && c < |s.cur| && Top(s, c) == Land(prev, me)
    ensures Inv(Continue(s, c, Land(prev, me)), x')
  {
    hide StackOk, Stacks, Hands, Clears, QueueOk, SemsOk, Accounts, Tables, Edit;
    Facts(s, x, c);
    var h := s.cur[c];
    var fr, k := s.stack[h], |s.stack[h]| - 1;
    LandFacts(s, x, h, prev);
    var f := Landed(me);
    SetBlock(h, fr, x.gate[h], x.mark[h], f);
    SetEdit(fr, f);
    HandsKeep(s.stack, x.loc, h, Popped(fr) + [f], k);
    FramesPin(s.stack, x, prev, Loose);
    FramesStep(s.stack, x.(pin := x.pin[prev := Loose]), h, Popped(fr) + [f], k, k, f, x.loc);
    x' := x.(gate := x.gate[h := k], mark := x.mark[h := f], pin := x.pin[prev := Loose]);
    TablesLand(s, x, c, h, prev, me, x');
  }

  lemma LandFacts(s: State, x: Shadow, h: Tid, prev: Tid)
    requires Inv(s, x) && h < |s.stack| && x.mark[h].Land? && x.mark[h].prev == prev
    ensures prev < |s.stack| && x.mark[prev] == Parked && x.pin[prev] == LeftBy(h)
  {
    hide Frames, Queues, Cpus, Parks, Saves, Places, Acts, Dead;
  }

  lemma TablesLand(s: State, x: Shadow, c: nat, h: Tid, prev: Tid, me: Tid, x': Shadow)
    requires Fitting(s, x) && Tables(s, x) && c < |s.cur| && h == s.cur[c] && h < |s.stack| && x.mark[h] != Parked
    requires me == h && prev != h && prev < |s.stack| && x.mark[h] == Land(prev, me)
    requires x.mark[prev] == Parked && x.pin[prev] == LeftBy(h)
    requires x' == x.(gate := x'.gate, mark := x.mark[h := Landed(me)], pin := x.pin[prev := Loose])
    requires |x'.gate| == |x.gate|
    ensures var s' := Continue(s, c, Land(prev, me)); Fitting(s', x') && Tables(s', x')
  {
    hide Pins;
    PinsLand(x.mark, x.pin, h, prev, me);
  }

  lemma OnLanded(s: State, x: Shadow, c: nat, me: Tid) returns (x': Shadow)
    requires Inv(s, x) && c < |s.cur| && Top(s, c) == Landed(me)
    ensures Inv(Continue(s, c, Landed(me)), x')
  {
    hide StackOk, Stacks, Hands, Clears, QueueOk, SemsOk, Accounts, Tables, Edit;
    Facts(s, x, c);
    var h := s.cur[c];
    var fr, k := s.stack[h], |s.stack[h]| - 1;
    PopBlock(h, fr, x.gate[h], x.mark[h]);
    PopEdit(fr);
    HandsKeep(s.stack, x.loc, h, Popped(fr), k);
    FramesStep(s.stack, x, h, Popped(fr), k, -1, Run, x.loc);
    x' := x.(gate := x.gate[h := -1], mark := x.mark[h := Run]);
    TablesLanded(s, x, c, h, me, x');
  }

  lemma TablesLanded(s: State, x: Shadow, c: nat, h: Tid, me: Tid, x': Shadow)
    requires Fitting(s, x) && Tables(s, x) && c < |s.cur| && h == s.cur[c] && h < |s.stack| && x.mark[h] != Parked
    requires me == h && x.mark[h] == Landed(me)
    requires x' == x.(gate := x'.gate, mark := x.mark[h := Run]) && |x'.gate| == |x.gate|
    ensures var s' := Continue(s, c, Landed(me)); Fitting(s', x') && Tables(s', x')
  {
    hide Pins, Acts;
    PinsSame(x.mark, x.pin, h, Run);
    ActsSame(s.cur, s.active, x.mark, h, Run);
  }

  lemma OnYieldRead(s: State, x: Shadow, c: nat) returns (x': Shadow)
    requires Inv(s, x) && c < |s.cur| && Top(s, c) == YieldRead
    ensures Inv(Continue(s, c, YieldRead), x')
  {
    hide StackOk, Stacks, Hands, Clears, QueueOk, SemsOk, Accounts, Tables, Edit;
    Facts(s, x, c);
    var h := s.cur[c];
    var fr, k := s.stack[h], |s.stack[h]| - 1;
    var f := YieldCheck(s.active[c]);
    SetPlain(h, fr, x.gate[h], x.mark[h], f);
    SetEdit(fr, f);
    PlainStep(s, x, h, Popped(fr) + [f], k);
    x' := x;
  }

  lemma OnYieldCheck(s: State, x: Shadow, c: nat, me: Tid) returns (x': Shadow)
    requires Inv(s, x) && c < |s.cur| && Top(s, c) == YieldCheck(me)
    ensures Inv(Continue(s, c, YieldCheck(me)), x')
  {
    hide StackOk, Stacks, Hands, Clears, QueueOk, SemsOk, Accounts, Tables, Edit;
    Facts(s, x, c);
    var h := s.cur[c];
    var fr, k := s.stack[h], |s.stack[h]| - 1;
    if IsSet(s.flag, me) {
      PopPlain(h, fr, x.gate[h], x.mark[h]);
      PopEdit(fr);
      PlainStep(s, x, h, Popped(fr), k);
    } else {
      ShownFlagged(s, x, c);
      SetPlain(h, fr, x.gate[h], x.mark[h], YieldSet(me));
      SetEdit(fr, YieldSet(me));
      PlainStep(s, x, h, Popped(fr) + [YieldSet(me)], k);
    }
    x' := x;
  }

  /** While the flag of the running thread is up, so is that of the thread that activeThreads names. */
  lemma ShownFlagged(s: State, x: Shadow, c: nat)
    requires Inv(s, x) && c < |s.cur|
    ensures var h := s.cur[c];
      h < |s.stack| && (x.gate[h] >= 0 ==> IsSet(s.flag, Shown(h, x.mark[h])))
  {
    hide Hands, Clears, Queues, Saves, Places, Acts, Dead;
    Facts(s, x, c);
  }

  lemma OnGive(s: State, x: Shadow, c: nat, it: Tid) returns (x': Shadow)
    requires Inv(s, x) && c < |s.cur| && Top(s, c) == Give(it)
    ensures Inv(Continue(s, c, Give(it)), x')
  {
    hide StackOk, Stacks, Hands, Clears, QueueOk, SemsOk, Accounts, Tables, Edit;
    Facts(s, x, c);
    var h := s.cur[c];
    var fr, k := s.stack[h], |s.stack[h]| - 1;
    HeldFacts(s, x, c);
    PopPlain(h, fr, x.gate[h], x.mark[h]);
    PopEdit(fr);
    DeadMove(s, x, it, OnReady);
    x' := Passed(s, x, Continue(s, c, Give(it)), h, Popped(fr), k, it, OnReady);
    QueueAdd(s.ready, x.loc, OnReady, it);
    QueueOther(s.zombies, x.loc, OnZombies, it, OnReady);
    SemsOther(s.sems, x.loc, it, OnReady);
  }

  /** A plain step by which a held thread goes to l. */
  lemma Passed(s: State, x: Shadow, s': State, h: Tid, fr: seq<Frame>, k: nat, t: Tid, l: Loc) returns (x': Shadow)
    requires Inv(s, x) && h < |s.stack| && StackOk(h, fr, x.gate[h], x.mark[h]) && x.mark[h] != Parked
    requires Edit(s.stack[h], fr, k) && HeldAt(s.stack[h], k) == t && HeldAt(fr, k) < 0 && ClearAt(fr, k) < 0
    requires t < |s.stack| && x.loc[t].InHand? && !l.InHand? && l != Running
    requires SameCpus(s, s') && s'.stack == s.stack[h := fr]
    requires Dead(s'.deleted, s'.dropped, x.loc[t := l], x.mark, x.pin)
    ensures x' == x.(loc := x.loc[t := l]) && Fitting(s', x') && Frames(s'.stack, x') && Tables(s', x')
  {
    hide StackOk, Stacks, Hands, Clears, Queues, Tables, Edit, Dead;
    HandsDrop(s.stack, x.loc, h, fr, k, t, l);
    FramesStep(s.stack, x, h, fr, k, x.gate[h], x.mark[h], x.loc[t := l]);
    assert x.gate[h := x.gate[h]] == x.gate && x.mark[h := x.mark[h]] == x.mark;
    TablesHand(s, x, s', t, l);
    x' := x.(loc := x.loc[t := l]);
  }

  /** A plain step by which stack h takes a thread off a queue. */
  lemma Taken(s: State, x: Shadow, s': State, h: Tid, fr: seq<Frame>, k: nat, t: Tid) returns (x': Shadow)
    requires Inv(s, x) && h < |s.stack| && StackOk(h, fr, x.gate[h], x.mark[h]) && x.mark[h] != Parked
    requires Edit(s.stack[h], fr, k) && HeldAt(s.stack[h], k) < 0 && k < |fr| && Held(fr[k]) == t && Clear(fr[k]) < 0
    requires t < |s.stack| && !x.loc[t].InHand? && x.loc[t] != Running
    requires SameCpus(s, s') && s'.stack == s.stack[h := fr]
    requires Dead(s'.deleted, s'.dropped, x.loc[t := InHand(h, k)], x.mark, x.pin)
    ensures x' == x.(loc := x.loc[t := InHand(h, k)]) && Fitting(s', x') && Frames(s'.stack, x') && Tables(s', x')
  {
    hide StackOk, Stacks, Hands, Clears, Queues, Tables, Edit, Dead;
    HandsTake(s.stack, x.loc, h, fr, k, t);
    FramesStep(s.stack, x, h, fr, k, x.gate[h], x.mark[h], x.loc[t := InHand(h, k)]);
    assert x.gate[h := x.gate[h]] == x.gate && x.mark[h := x.mark[h]] == x.mark;
    TablesHand(s, x, s', t, InHand(h, k));
    x' := x.(loc := x.loc[t := InHand(h, k)]);
  }

  lemma OnReap(s: State, x: Shadow, c: nat, alone: Option<Tid>) returns (x': Shadow)
    requires Inv(s, x) && c < |s.cur| && Top(s, c) == Reap(alone)
    ensures Inv(Continue(s, c, Reap(alone)), x')
  {
    hide StackOk, Stacks, Hands, Clears, QueueOk, SemsOk, Accounts, Tables, Edit;
    Facts(s, x, c);
    var h := s.cur[c];
    var fr, k := s.stack[h], |s.stack[h]| - 1;
    if s.zombies == [] {
      PopPlain(h, fr, x.gate[h], x.mark[h]);
      PopEdit(fr);
      PlainStep(s, x, h, Popped(fr), k);
      return x;
    }
    var it := s.zombies[0];
    var f, l := ReapGot(it, alone), InHand(h, k);
    QueueTake(s.zombies, x.loc, OnZombies, l);
    QueueOther(s.ready, x.loc, OnReady, it, l);
    SemsOther(s.sems, x.loc, it, l);
    SetPlain(h, fr, x.gate[h], x.mark[h], f);
    SetEdit(fr, f);
    DeadMove(s, x, it, l);
    x' := Taken(s, x, Continue(s, c, Reap(alone)), h, Popped(fr) + [f], k, it);
  }

  lemma OnReapGot(s: State, x: Shadow, c: nat, it: Tid, alone: Option<Tid>) returns (x': Shadow)
    requires Inv(s, x) && c < |s.cur| && Top(s, c) == ReapGot(it, alone)
    ensures Inv(Continue(s, c, ReapGot(it, alone)), x')
  {
    hide StackOk, Stacks, Hands, Clears, QueueOk, SemsOk, Accounts, Tables, Edit;
    Facts(s, x, c);
    var h := s.cur[c];
    var fr, k := s.stack[h], |s.stack[h]| - 1;
    HeldFacts(s, x, c);
    if IsSet(s.flag, it) && alone == Some(it) {
      PopPlain(h, fr, x.gate[h], x.mark[h]);
      PopEdit(fr);
      DeadDrop(s, x, it);
      x' := Passed(s, x, Continue(s, c, ReapGot(it, alone)), h, Popped(fr), k, it, Lost);
      QueueOther(s.ready, x.loc, OnReady, it, Lost);
      QueueOther(s.zombies, x.loc, OnZombies, it, Lost);
      SemsOther(s.sems, x.loc, it, Lost);
      return;
    }
    if !IsSet(s.flag, it) {
      Unflagged(s, x, it);
    }
    var f := if !IsSet(s.flag, it) then ReapFree(it, alone) else ReapBack(it, if alone.None? then Some(it) else alone);
    SetPlain(h, fr, x.gate[h], x.mark[h], f);
    SetEdit(fr, f);
    PlainStep(s, x, h, Popped(fr) + [f], k);
    x' := x;
  }

  lemma OnReapBack(s: State, x: Shadow, c: nat, it: Tid, alone: Option<Tid>) returns (x': Shadow)
    requires Inv(s, x) && c < |s.cur| && Top(s, c) == ReapBack(it, alone)
    ensures Inv(Continue(s, c, ReapBack(it, alone)), x')
  {
    hide StackOk, Stacks, Hands, Clears, QueueOk, SemsOk, Accounts, Tables, Edit;
    Facts(s, x, c);
    var h := s.cur[c];
    var fr, k := s.stack[h], |s.stack[h]| - 1;
    HeldFacts(s, x, c);
    SetPlain(h, fr, x.gate[h], x.mark[h], Reap(alone));
    SetEdit(fr, Reap(alone));
    DeadMove(s, x, it, OnZombies);
    x' := Passed(s, x, Continue(s, c, ReapBack(it, alone)), h, Popped(fr) + [Reap(alone)], k, it, OnZombies);
    QueueOther(s.ready, x.loc, OnReady, it, OnZombies);
    QueueAdd(s.zombies, x.loc, OnZombies, it);
    SemsOther(s.sems, x.loc, it, OnZombies);
  }

  lemma OnReapFree(s: State, x: Shadow, c: nat, it: Tid, alone: Option<Tid>) returns (x': Shadow)
    requires Inv(s, x) && c < |s.cur| && Top(s, c) == ReapFree(it, alone)
    ensures Inv(Continue(s, c, ReapFree(it, alone)), x')
  {
    hide StackOk, Stacks, Hands, Clears, QueueOk, SemsOk, Accounts, Tables, Edit;
    Facts(s, x, c);
    var h := s.cur[c];
    var fr, k := s.stack[h], |s.stack[h]| - 1;
    HeldFacts(s, x, c);
    SetPlain(h, fr, x.gate[h], x.mark[h], Reap(alone));
    SetEdit(fr, Reap(alone));
    var s' := Continue(s, c, ReapFree(it, alone));
    DeadDelete(s, x, it);
    x' := Passed(s, x, s', h, Popped(fr) + [Reap(alone)], k, it, Lost);
    QueueOther(s.ready, x.loc, OnReady, it, Lost);
    QueueOther(s.zombies, x.loc, OnZombies, it, Lost);
    SemsOther(s.sems, x.loc, it, Lost);
  }

  lemma DeadDrop(s: State, x: Shadow, t: Tid)
    requires Fitting(s, x) && Tables(s, x) && t < |s.stack|
    ensures Dead(s.deleted, s.dropped[t := true], x.loc[t := Lost], x.mark, x.pin)
  {
    hide Cpus, Parks, Saves, Flags, Pins, Acts, Places;
  }

  lemma DeadDelete(s: State, x: Shadow, t: Tid)
    requires Fitting(s, x) && Tables(s, x) && t < |s.stack| && x.mark[t] == Parked && x.pin[t] == Loose
    ensures Dead(s.deleted[t := true], s.dropped, x.loc[t := Lost], x.mark, x.pin)
  {
    hide Cpus, Parks, Saves, Flags, Pins, Acts, Places;
  }

  lemma PinsSame(mark: seq<Frame>, pin: seq<Pin>, h: Tid, m: Frame)
    requires |mark| == |pin| && Pins(mark, pin) && h < |mark|
    requires Pinned(m) == Pinned(mark[h]) && (m.Land? <==> mark[h].Land?)
    ensures Pins(mark[h := m], pin)
  {
  }

  lemma ActsSame(cur: seq<Tid>, active: seq<Tid>, mark: seq<Frame>, h: Tid, m: Frame)
    requires |cur| == |active| && Acts(cur, active, mark) && h < |mark| && Shown(h, m) == Shown(h, mark[h])
    ensures Acts(cur, active, mark[h := m])
  {
  }

  lemma PinsClaim(mark: seq<Frame>, pin: seq<Pin>, h: Tid, me: Tid, it: Tid)
    requires |mark| == |pin| && Pins(mark, pin) && h < |mark| && it < |mark|
    requires mark[h] == Claim(me, it) && pin[it] == Loose
    ensures Pins(mark[h := Activate(me, it)], pin[it := ClaimedBy(h)])
  {
  }

  lemma PinsJump(mark: seq<Frame>, pin: seq<Pin>, h: Tid, me: Tid, it: Tid)
    requires |mark| == |pin| && Pins(mark, pin) && h < |mark| && it < |mark| && it != h
    requires mark[h] == Jump(h, it) && mark[it] == Parked && pin[it] == ClaimedBy(h) && pin[h] == Loose && me == h
    ensures Pins(mark[h := Parked][it := Land(me, it)], pin[h := LeftBy(it)][it := Loose])
  {
  }

  lemma PinsLand(mark: seq<Frame>, pin: seq<Pin>, h: Tid, prev: Tid, me: Tid)
    requires |mark| == |pin| && Pins(mark, pin) && h < |mark| && prev < |mark|
    requires mark[h] == Land(prev, me) && pin[prev] == LeftBy(h)
    ensures Pins(mark[h := Landed(me)], pin[prev := Loose])
  {
  }

  lemma CpusJump(s: State, x: Shadow, c: nat, h: Tid, me: Tid, it: Tid)
    requires Fitting(s, x) && c < |s.cur| && h == s.cur[c] && h < |s.stack| && it < |s.stack| && it != h
    requires Cpus(s.cur, x.on) && Acts(s.cur, s.active, x.mark) && x.mark[h] == Jump(me, it) && x.on[it] < 0
    ensures Cpus(s.cur[c := it], x.on[h := -1][it := c])
    ensures Acts(s.cur[c := it], s.active, x.mark[h := Parked][it := Land(me, it)])
  {
  }

  // ---- the steps that thread code starts

  lemma OnInterrupt(s: State, x: Shadow, c: nat)
    requires Inv(s, x) && c < |s.cur|
    ensures Inv(s.(stack := Push(s.stack, s.cur[c], YieldRead)), x)
  {
    hide StackOk, Stacks, Hands, Clears, Queues, Tables, Edit;
    Facts(s, x, c);
    var h := s.cur[c];
    var fr := s.stack[h];
    PushPlain(h, fr, x.gate[h], x.mark[h], YieldRead);
    PushEdit(fr, YieldRead);
    PlainStep(s, x, h, fr + [YieldRead], |fr|);
  }

  lemma OnCall(s: State, x: Shadow, c: nat, act: Act)
    requires Inv(s, x) && c < |s.cur| && Top(s, c) == Run && (act.Yield? || act.Stop? || act.Reaper?)
    ensures Inv(Start(s, c, act), x)
  {
    hide StackOk, Stacks, Hands, Clears, Queues, Tables, Edit;
    Facts(s, x, c);
    var h := s.cur[c];
    var fr, f := s.stack[h], if act.Yield? then YieldRead else if act.Stop? then StopSet(s.active[c]) else Reap(None);
    PushPlain(h, fr, x.gate[h], x.mark[h], f);
    PushEdit(fr, f);
    PlainStep(s, x, h, fr + [f], |fr|);
  }

  lemma SetSem(sems: seq<Sem<Tid>>, k: nat, m: Sem<Tid>)
    requires Accounts(sems) && k < |sems| && SemOk(m)
    ensures Accounts(sems[k := m])
  {
  }

  /** down with count above 0, and up with nobody waiting. */
  lemma OnCount(s: State, x: Shadow, c: nat, act: Act)
    requires Inv(s, x) && c < |s.cur| && Top(s, c) == Run && (act.Await? || act.Signal?) && act.s < |s.sems|
    requires if act.Await? then s.sems[act.s].count > 0 else s.sems[act.s].waiting == []
    ensures Inv(Start(s, c, act), x)
  {
    hide Frames, Tables, QueueOk, SemsOk, Accounts;
    var k, m' := act.s, Start(s, c, act).sems[act.s];
    AccountOf(s.sems, k);
    SetSem(s.sems, k, m');
    SemsSame(s.sems, x.loc, k, m');
    TablesSame(s, x, Start(s, c, act));
  }

  lemma TablesSame(s: State, x: Shadow, s': State)
    requires Fitting(s, x) && Tables(s, x) && SameTables(s, s')
    ensures Fitting(s', x) && Tables(s', x)
  {
    hide Cpus, Parks, Saves, Flags, Places, Pins, Acts, Dead;
  }

  lemma AccountOf(sems: seq<Sem<Tid>>, k: nat)
    requires Accounts(sems) && k < |sems|
    ensures SemOk(sems[k])
  {
  }

  lemma OnWait(s: State, x: Shadow, c: nat, k: nat) returns (x': Shadow)
    requires Inv(s, x) && c < |s.cur| && Top(s, c) == Run && k < |s.sems| && s.sems[k].count == 0
    ensures Inv(Start(s, c, Await(k)), x')
  {
    hide StackOk, Stacks, Hands, Clears, QueueOk, SemsOk, Accounts, Tables, Edit;
    Facts(s, x, c);
    var h := s.cur[c];
    var fr, f, l, m' := s.stack[h], Block(h), OnSem(k), Start(s, c, Await(k)).sems[k];
    RunningAt(s, x, h);
    PushBlock(h, fr, x.gate[h], f);
    PushEdit(fr, f);
    HandsKeep(s.stack, x.loc, h, fr + [f], |fr|);
    HandsMove(s.stack[h := fr + [f]], x.loc, h, l);
    FramesStep(s.stack, x, h, fr + [f], |fr|, |fr|, f, x.loc[h := l]);
    QueueOther(s.ready, x.loc, OnReady, h, l);
    QueueOther(s.zombies, x.loc, OnZombies, h, l);
    AccountOf(s.sems, k);
    SetSem(s.sems, k, m');
    SemsAdd(s.sems, x.loc, k, h, m');
    x' := x.(gate := x.gate[h := |fr|], mark := x.mark[h := f], loc := x.loc[h := l]);
    TablesWait(s, x, c, h, k, x');
  }

  lemma TablesWait(s: State, x: Shadow, c: nat, h: Tid, k: nat, x': Shadow)
    requires Fitting(s, x) && Tables(s, x) && c < |s.cur| && h == s.cur[c] == s.active[c] && h < |s.stack|
    requires x.mark[h] == Run && x.pin[h] == Loose && !s.deleted[h] && k < |s.sems| && s.sems[k].count == 0
    requires x' == x.(gate := x'.gate, mark := x.mark[h := Block(h)], loc := x.loc[h := OnSem(k)])
    requires |x'.gate| == |x.gate|
    ensures var s' := Start(s, c, Await(k)); Fitting(s', x') && Tables(s', x')
  {
    hide Pins, Acts;
    PinsSame(x.mark, x.pin, h, Block(h));
    ActsSame(s.cur, s.active, x.mark, h, Block(h));
  }

  lemma OnWake(s: State, x: Shadow, c: nat, k: nat) returns (x': Shadow)
    requires Inv(s, x) && c < |s.cur| && Top(s, c) == Run && k < |s.sems| && s.sems[k].waiting != []
    ensures Inv(Start(s, c, Signal(k)), x')
  {
    hide StackOk, Stacks, Hands, Clears, QueueOk, SemsOk, Accounts, Tables, Edit;
    Facts(s, x, c);
    var h := s.cur[c];
    var fr, t, m' := s.stack[h], s.sems[k].waiting[0], Start(s, c, Signal(k)).sems[k];
    var f, l := Give(t), InHand(h, |fr|);
    SemsTake(s.sems, x.loc, k, m', l);
    AccountOf(s.sems, k);
    SetSem(s.sems, k, m');
    QueueOther(s.ready, x.loc, OnReady, t, l);
    QueueOther(s.zombies, x.loc, OnZombies, t, l);
    PushPlain(h, fr, x.gate[h], x.mark[h], f);
    PushEdit(fr, f);
    DeadMove(s, x, t, l);
    x' := Taken(s, x, Start(s, c, Signal(k)), h, fr + [f], |fr|, t);
  }

  // ---- a new thread; the proof first adds it as one that was given up, then hands it out

  function Grown(s: State): State {
    s.(stack := s.stack + [[Run, Parked]], flag := s.flag + [false], saved := s.saved + [true],
       deleted := s.deleted + [false], dropped := s.dropped + [true])
  }

  function GrownShadow(x: Shadow): Shadow {
    Shadow(x.on + [-1], x.loc + [Lost], x.pin + [Loose], x.gate + [1], x.mark + [Parked])
  }

  lemma GrowFrames(s: State, x: Shadow)
    requires Inv(s, x)
    ensures Frames(Grown(s).stack, GrownShadow(x))
  {
    hide Queues, Tables, StackOk;
    NewStack(|s.stack|);
  }

  lemma NewStack(h: Tid)
    ensures StackOk(h, [Run, Parked], 1, Parked)
  {
  }

  lemma GrowQueues(s: State, x: Shadow)
    requires Inv(s, x)
    ensures Queues(s.ready, s.zombies, s.sems, GrownShadow(x).loc)
  {
    hide Frames, Tables, Accounts;
  }

  lemma GrowTables(s: State, x: Shadow)
    requires Inv(s, x)
    ensures Fitting(Grown(s), GrownShadow(x)) && Tables(Grown(s), GrownShadow(x))
  {
    hide Frames, Queues;
  }

  lemma OnSpawn(s: State, x: Shadow, c: nat) returns (x': Shadow)
    requires Inv(s, x) && c < |s.cur| && Top(s, c) == Run
    ensures Inv(Start(s, c, Spawn), x')
  {
    hide StackOk, Stacks, Hands, Clears, QueueOk, SemsOk, Accounts, Tables, Edit, Frames, Queues;
    GrowFrames(s, x);
    GrowQueues(s, x);
    GrowTables(s, x);
    Facts(s, x, c);
    x' := HandOut(Grown(s), GrownShadow(x), c, |s.stack|, Start(s, c, Spawn));
  }

  lemma HandOut(s: State, x: Shadow, c: nat, t: Tid, s': State) returns (x': Shadow)
    requires Inv(s, x) && c < |s.cur| && t < |s.stack| && s.cur[c] != t && x.loc[t] == Lost && !s.deleted[t]
    requires Top(s, c) == Run && s' == s.(stack := Push(s.stack, s.cur[c], Give(t)), dropped := s.dropped[t := false])
    ensures Inv(s', x')
  {
    hide StackOk, Stacks, Hands, Clears, QueueOk, SemsOk, Accounts, Tables, Edit;
    Facts(s, x, c);
    var h := s.cur[c];
    var fr, f := s.stack[h], Give(t);
    var l := InHand(h, |fr|);
    PushPlain(h, fr, x.gate[h], x.mark[h], f);
    PushEdit(fr, f);
    DeadBorn(s, x, t, l);
    x' := Taken(s, x, s', h, fr + [f], |fr|, t);
    QueueOther(s.ready, x.loc, OnReady, t, l);
    QueueOther(s.zombies, x.loc, OnZombies, t, l);
    SemsOther(s.sems, x.loc, t, l);
  }

  lemma DeadBorn(s: State, x: Shadow, t: Tid, l: Loc)
    requires Fitting(s, x) && Tables(s, x) && t < |s.stack| && l != Lost && !s.deleted[t]
    ensures Dead(s.deleted, s.dropped[t := false], x.loc[t := l], x.mark, x.pin)
  {
    hide Cpus, Parks, Saves, Flags, Pins, Acts, Places;
  }

  // ---- every step

  lemma OnStart(s: State, x: Shadow, c: nat, act: Act) returns (x': Shadow)
    requires Inv(s, x) && c < |s.cur| && Top(s, c) == Run
    ensures Inv(Start(s, c, act), x')
  {
    hide Inv, Start;
    x' := x;
    match act
    case Await(k) =>
      if k < |s.sems| && s.sems[k].count == 0 { x' := OnWait(s, x, c, k); } else { OnDown(s, x, c, k); }
    case Signal(k) =>
      if k < |s.sems| && s.sems[k].waiting != [] { x' := OnWake(s, x, c, k); } else { OnUp(s, x, c, k); }
    case Spawn => x' := OnSpawn(s, x, c);
    case _ => OnCall(s, x, c, act);
  }

  lemma OnDown(s: State, x: Shadow, c: nat, k: nat)
    requires Inv(s, x) && c < |s.cur| && Top(s, c) == Run && (k < |s.sems| ==> s.sems[k].count > 0)
    ensures Inv(Start(s, c, Await(k)), x)
  {
    hide Inv;
    if k < |s.sems| { OnCount(s, x, c, Await(k)); }
  }

  lemma OnUp(s: State, x: Shadow, c: nat, k: nat)
    requires Inv(s, x) && c < |s.cur| && Top(s, c) == Run && (k < |s.sems| ==> s.sems[k].waiting == [])
    ensures Inv(Start(s, c, Signal(k)), x)
  {
    hide Inv;
    if k < |s.sems| { OnCount(s, x, c, Signal(k)); }
  }

  lemma OnContinue(s: State, x: Shadow, c: nat, f: Frame) returns (x': Shadow)
    requires Inv(s, x) && c < |s.cur| && Top(s, c) == f
    ensures Inv(Continue(s, c, f), x')
  {
    hide Inv, Continue;
    x' := x;
    match f
    case Run => OnIdle(s, x, c, f);
    case Parked => OnIdle(s, x, c, f);
    case YieldRead => x' := OnYieldRead(s, x, c);
    case YieldCheck(me) => x' := OnYieldCheck(s, x, c, me);
    case YieldSet(me) => x' := OnYieldSet(s, x, c, me);
    case YieldAdd(me) => x' := OnYieldAdd(s, x, c, me);
    case StopSet(me) => x' := OnStopSet(s, x, c, me);
    case StopAdd(me) => x' := OnStopAdd(s, x, c, me);
    case Block(me) => x' := OnBlock(s, x, c, me);
    case Got(me, it) => if it == me { x' := OnGotSelf(s, x, c, me); } else { x' := OnGotOther(s, x, c, me, it); }
    case Requeue(me, it) => x' := OnRequeue(s, x, c, me, it);
    case Claim(me, it) => x' := OnClaim(s, x, c, me, it);
    case Activate(me, it) => x' := OnActivate(s, x, c, me, it);
    case Save(me, it) => x' := OnSave(s, x, c, me, it);
    case Jump(me, it) => x' := OnJump(s, x, c, me, it);
    case Land(prev, me) => x' := OnLand(s, x, c, prev, me);
    case Landed(me) => x' := OnLanded(s, x, c, me);
    case Give(it) => x' := OnGive(s, x, c, it);
    case Reap(alone) => x' := OnReap(s, x, c, alone);
    case ReapGot(it, alone) => x' := OnReapGot(s, x, c, it, alone);
    case ReapBack(it, alone) => x' := OnReapBack(s, x, c, it, alone);
    case ReapFree(it, alone) => x' := OnReapFree(s, x, c, it, alone);
  }

  lemma OnIdle(s: State, x: Shadow, c: nat, f: Frame)
    requires Inv(s, x) && c < |s.cur| && (f.Run? || f.Parked?)
    ensures Inv(Continue(s, c, f), x)
  {
    hide Inv;
  }

  /** Every step of every CPU keeps the invariant. */
  lemma NextKeeps(s: State, x: Shadow, m: Move) returns (x': Shadow)
    requires Inv(s, x)
    ensures Inv(Next(s, m), x')
  {
    hide Frames, Queues, Tables, Continue, Start;
    if m.c >= |s.cur| {
      x' := x;
    } else if m.Interrupt? {
      OnInterrupt(s, x, m.c);
      x' := x;
    } else if Top(s, m.c).Run? {
      x' := OnStart(s, x, m.c, m.act);
    } else {
      x' := OnContinue(s, x, m.c, Top(s, m.c));
    }
  }
}
