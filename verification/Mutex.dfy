/**
  The mutex of kernel/mutex.h: a semaphore of 1, shared by any number of callers that unlock only
  what they hold.
*/
module Mutexes {
  import opened Semaphores
  import opened Tallies

  datatype Phase = Idle | Waiting | Holding

  datatype State = State(mutex: Sem<nat>, callers: seq<Phase>)

  /** A caller that is idle locks; one that holds the mutex unlocks; any other move is not made. */
  datatype Move = Lock(i: nat) | Unlock(i: nat)

  function Next(s: State, m: Move): State {
    if m.i >= |s.callers| then s
    else if m.Lock? && s.callers[m.i].Idle? then
      State(Down(s.mutex, m.i), s.callers[m.i := if Waits(s.mutex) then Waiting else Holding])
    else if m.Unlock? && s.callers[m.i].Holding? then
      var left := s.callers[m.i := Idle];
      State(Up(s.mutex),
            match Woken(s.mutex)
            case None => left
            case Some(j) => if j < |left| then left[j := Holding] else left)
    else s
  }

  function Runs(s: State, moves: seq<Move>): State
    decreases |moves|
  {
    if moves == [] then s else Next(Runs(s, moves[..|moves| - 1]), moves[|moves| - 1])
  }

  function Start(callers: nat): State { State(Created(1), seq(callers, _ => Idle)) }

  // ---- one token: in the count, or in one caller's hands

  function Held(callers: seq<Phase>): (w: seq<nat>)
    ensures |w| == |callers| && forall i :: 0 <= i < |w| ==> w[i] == if callers[i].Holding? then 1 else 0
  {
    seq(|callers|, (i: nat) requires i < |callers| => if callers[i].Holding? then 1 else 0)
  }

  function Blocked(callers: seq<Phase>): (b: seq<bool>)
    ensures |b| == |callers| && forall i :: 0 <= i < |b| ==> b[i] == callers[i].Waiting?
  {
    seq(|callers|, (i: nat) requires i < |callers| => callers[i].Waiting?)
  }

  ghost predicate Ok(s: State) {
    && s.mutex.count + Total(Held(s.callers)) == 1
    && Waiters(s.mutex, Blocked(s.callers))
  }

  lemma Recount(callers: seq<Phase>, i: nat, p: Phase)
    requires i < |callers|
    ensures Total(Held(callers[i := p])) + (if callers[i].Holding? then 1 else 0)
      == Total(Held(callers)) + (if p.Holding? then 1 else 0)
  {
    TotalSet(Held(callers), i, if p.Holding? then 1 else 0);
    assert Held(callers[i := p]) == Held(callers)[i := if p.Holding? then 1 else 0];
  }

  lemma OnLock(s: State, i: nat)
    requires Ok(s) && i < |s.callers| && s.callers[i].Idle?
    ensures Ok(Next(s, Lock(i)))
  {
    hide Waiters, Total;
    var p := if Waits(s.mutex) then Waiting else Holding;
    Recount(s.callers, i, p);
    WaitersDown(s.mutex, Blocked(s.callers), i);
    assert Blocked(s.callers[i := p]) == Blocked(s.callers)[i := Waits(s.mutex)];
  }

  lemma OnUnlock(s: State, i: nat)
    requires Ok(s) && i < |s.callers| && s.callers[i].Holding?
    ensures Ok(Next(s, Unlock(i)))
  {
    hide Total;
    var left := s.callers[i := Idle];
    Recount(s.callers, i, Idle);
    assert Blocked(left) == Blocked(s.callers);
    if s.mutex.waiting != [] {
      WaitersUp(s.mutex, Blocked(left));
      var j := s.mutex.waiting[0];
      Recount(left, j, Holding);
      assert Blocked(left[j := Holding]) == Blocked(left)[j := false];
    }
  }

  lemma {:induction false} RunsOk(callers: nat, moves: seq<Move>)
    ensures Ok(Runs(Start(callers), moves))
    decreases |moves|
  {
    hide Waiters;
    if moves == [] {
      StartOk(callers);
    } else {
      var s, m := Runs(Start(callers), moves[..|moves| - 1]), moves[|moves| - 1];
      RunsOk(callers, moves[..|moves| - 1]);
      if m.i < |s.callers| {
        if m.Lock? && s.callers[m.i].Idle? { OnLock(s, m.i); }
        if m.Unlock? && s.callers[m.i].Holding? { OnUnlock(s, m.i); }
      }
    }
  }

  lemma StartOk(callers: nat)
    ensures Ok(Start(callers))
  {
    var w := Held(Start(callers).callers);
    if Total(w) > 0 { var i := TotalSome(w); }
  }

  /** Whatever the callers do, no two hold the mutex; and when one waits, another holds it. */
  lemma Exclusive(callers: nat, moves: seq<Move>)
    ensures var s := Runs(Start(callers), moves);
      && (forall i, j :: 0 <= i < j < |s.callers| ==> !(s.callers[i].Holding? && s.callers[j].Holding?))
      && ((exists i :: 0 <= i < |s.callers| && s.callers[i].Waiting?) ==>
           exists j :: 0 <= j < |s.callers| && s.callers[j].Holding?)
  {
    hide Total, Runs;
    RunsOk(callers, moves);
    var s := Runs(Start(callers), moves);
    forall i, j | 0 <= i < j < |s.callers| ensures !(s.callers[i].Holding? && s.callers[j].Holding?) {
      TotalTwo(Held(s.callers), i, j);
    }
    if i :| 0 <= i < |s.callers| && s.callers[i].Waiting? {
      assert Blocked(s.callers)[i];
      var j := TotalSome(Held(s.callers));
    }
  }

  /** A caller that locks gets the mutex at once when nobody holds it, and is last in line otherwise. */
  lemma LockGets(callers: nat, moves: seq<Move>, s: State, i: nat)
    requires s == Runs(Start(callers), moves) && i < |s.callers| && s.callers[i].Idle?
    ensures var s' := Next(s, Lock(i));
      if exists j :: 0 <= j < |s.callers| && s.callers[j].Holding?
      then s'.callers == s.callers[i := Waiting] && s'.mutex.waiting == s.mutex.waiting + [i]
      else s'.callers == s.callers[i := Holding] && s.mutex.waiting == [] == s'.mutex.waiting
  {
    hide Total, Runs;
    RunsOk(callers, moves);
    if j :| 0 <= j < |s.callers| && s.callers[j].Holding? {
      TotalHas(Held(s.callers), j);
    } else if Total(Held(s.callers)) > 0 {
      var j := TotalSome(Held(s.callers));
    }
  }

  /** One that unlocks hands the mutex to the first in line, if there is one. */
  lemma UnlockGives(callers: nat, moves: seq<Move>, s: State, i: nat)
    requires s == Runs(Start(callers), moves) && i < |s.callers| && s.callers[i].Holding?
    ensures var s' := Next(s, Unlock(i));
      if s.mutex.waiting == [] then s'.callers == s.callers[i := Idle] && s'.mutex.waiting == []
      else
        var j := s.mutex.waiting[0];
        && j < |s.callers| && j != i && s.callers[j].Waiting?
        && s'.callers == s.callers[i := Idle][j := Holding] && s'.mutex.waiting == s.mutex.waiting[1..]
  {
    hide Total, Runs;
    RunsOk(callers, moves);
    if s.mutex.waiting != [] { WaitersUp(s.mutex, Blocked(s.callers)); }
  }
}
