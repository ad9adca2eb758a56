/**
  The future of kernel/future.h, as exit and wait use it (kernel/threads.h): any interleaving of
  any number of set and get calls.  A get that got through passes its turn on with an up.
*/
module Future {
  import opened Options
  import opened Semaphores
  import opened Tallies

  /** A set writes, then ups; a get downs, ups, then reads. */
  datatype Phase = Write | Signal | Await | Waiting | PassOn | Read | Done

  datatype Call<T> =
    | Set(v: T, at: Phase)
    | Get(got: Option<T>, at: Phase)

  predicate Shaped<T>(c: Call<T>) {
    if c.Set? then c.at.Write? || c.at.Signal? || c.at.Done?
    else (c.at.Await? || c.at.Waiting? || c.at.PassOn? || c.at.Read? || c.at.Done?) && (c.at.Done? ==> c.got.Some?)
  }

  predicate Wrote<T>(c: Call<T>) { c.Set? && !c.at.Write? }

  predicate Through<T>(c: Call<T>) { c.Get? && (c.at.PassOn? || c.at.Read? || c.at.Done?) }

  datatype Tally = Tokens | Signals | Steps

  /** Gets that hold a token, sets that released one, and steps to go. */
  function Weight<T>(t: Tally, c: Call<T>): nat {
    match t
    case Tokens => if c.Get? && c.at.PassOn? then 1 else 0
    case Signals => if c.Set? && c.at.Done? then 1 else 0
    case Steps =>
      match c.at
      case Write => 2 case Signal => 1
      case Await => 4 case Waiting => 3 case PassOn => 2 case Read => 1
      case Done => 0
  }

  function Weights<T>(t: Tally, calls: seq<Call<T>>): (w: seq<nat>)
    ensures |w| == |calls| && forall i :: 0 <= i < |w| ==> w[i] == Weight(t, calls[i])
  {
    seq(|calls|, (i: nat) requires i < |calls| => Weight(t, calls[i]))
  }

  function Sum<T>(t: Tally, calls: seq<Call<T>>): nat { Total(Weights(t, calls)) }

  lemma Recount<T>(calls: seq<Call<T>>, i: nat, c: Call<T>)
    requires i < |calls|
    ensures forall t :: Sum(t, calls[i := c]) + Weight(t, calls[i]) == Sum(t, calls) + Weight(t, c)
  {
    hide Weight;
    forall t ensures Sum(t, calls[i := c]) + Weight(t, calls[i]) == Sum(t, calls) + Weight(t, c) {
      TotalSet(Weights(t, calls), i, Weight(t, c));
      assert Weights(t, calls[i := c]) == Weights(t, calls)[i := Weight(t, c)];
    }
  }

  lemma SumHas<T>(t: Tally, calls: seq<Call<T>>, i: nat)
    requires i < |calls|
    ensures Sum(t, calls) >= Weight(t, calls[i])
  {
    TotalHas(Weights(t, calls), i);
  }

  // ---- the invariant

  function Blocked<T>(calls: seq<Call<T>>): (b: seq<bool>)
    ensures |b| == |calls| && forall i :: 0 <= i < |b| ==> b[i] == calls[i].at.Waiting?
  {
    seq(|calls|, (i: nat) requires i < |calls| => calls[i].at.Waiting?)
  }

  /** value was written by one of the sets. */
  ghost predicate Written<T>(value: T, calls: seq<Call<T>>) {
    exists i :: 0 <= i < |calls| && Wrote(calls[i]) && calls[i].v == value
  }

  /** Once a set has written, value is some set's; so is what every get returned. */
  ghost predicate Results<T>(value: T, calls: seq<Call<T>>) {
    && ((exists i :: 0 <= i < |calls| && Wrote(calls[i])) ==> Written(value, calls))
    && (forall i :: 0 <= i < |calls| && calls[i].Get? && calls[i].at.Done? && calls[i].got.Some? ==>
          Written(calls[i].got.value, calls))
  }

  /** One token for each set that is through; a get is through only after a set, and with a value some set wrote. */
  ghost predicate Ok<T>(value: T, isReady: Sem<nat>, calls: seq<Call<T>>) {
    && (forall i :: 0 <= i < |calls| ==> Shaped(calls[i]))
    && Waiters(isReady, Blocked(calls))
    && isReady.count + Sum(Tokens, calls) == Sum(Signals, calls)
    && (forall i :: 0 <= i < |calls| && Through(calls[i]) ==> Sum(Signals, calls) > 0)
    && Results(value, calls)
  }

  lemma KeepsWritten<T>(value: T, calls: seq<Call<T>>, i: nat, c: Call<T>)
    requires Written(value, calls) && i < |calls| && (Wrote(calls[i]) ==> Wrote(c) && c.v == calls[i].v)
    ensures Written(value, calls[i := c])
  {
    var j :| 0 <= j < |calls| && Wrote(calls[j]) && calls[j].v == value;
    assert Wrote(calls[i := c][j]);
  }

  /** A call moves on without writing the value or returning one. */
  lemma KeepsResults<T>(value: T, calls: seq<Call<T>>, i: nat, c: Call<T>)
    requires Results(value, calls) && i < |calls|
    requires Wrote(c) <==> Wrote(calls[i])
    requires Wrote(c) ==> c.v == calls[i].v
    requires c.Get? ==> !c.at.Done?
    ensures Results(value, calls[i := c])
  {
    hide Written;
    var calls' := calls[i := c];
    if j :| 0 <= j < |calls'| && Wrote(calls'[j]) {
      assert Wrote(calls[j]);
      KeepsWritten(value, calls, i, c);
    }
    forall j | 0 <= j < |calls'| && calls'[j].Get? && calls'[j].at.Done? && calls'[j].got.Some?
      ensures Written(calls'[j].got.value, calls')
    {
      assert calls'[j] == calls[j];
      KeepsWritten(calls[j].got.value, calls, i, c);
    }
  }

  /** A set that is through has written. */
  lemma SignalWrote<T>(calls: seq<Call<T>>) returns (i: nat)
    requires Sum(Signals, calls) > 0
    ensures i < |calls| && Wrote(calls[i]) && calls[i].at.Done?
  {
    i := TotalSome(Weights(Signals, calls));
  }

  // ---- the steps

  function Moved<T>(c: Call<T>, at: Phase): Call<T> { c.(at := at) }

  /** Call i goes on to `self` after an up that lets the first waiter, if any, go on. */
  function UpAt<T>(calls: seq<Call<T>>, m: Sem<nat>, i: nat, self: Phase): seq<Call<T>>
    requires i < |calls|
  {
    var calls1 := calls[i := Moved(calls[i], self)];
    if m.waiting != [] && m.waiting[0] < |calls|
    then calls1[m.waiting[0] := Moved(calls1[m.waiting[0]], PassOn)]
    else calls1
  }

  lemma OnWrite<T>(value: T, isReady: Sem<nat>, calls: seq<Call<T>>, i: nat)
    requires Ok(value, isReady, calls) && i < |calls| && calls[i].at.Write?
    ensures var calls' := calls[i := Moved(calls[i], Signal)];
      Ok(calls[i].v, isReady, calls') && Sum(Steps, calls') < Sum(Steps, calls)
  {
    hide Sum, Written;
    var c := Moved(calls[i], Signal);
    var calls' := calls[i := c];
    Recount(calls, i, c);
    assert Blocked(calls') == Blocked(calls);
    assert Written(c.v, calls') by { WrittenAt(calls', i); }
    forall j | 0 <= j < |calls'| && calls'[j].Get? && calls'[j].at.Done? && calls'[j].got.Some?
      ensures Written(calls'[j].got.value, calls')
    {
      KeepsWritten(calls[j].got.value, calls, i, c);
    }
  }

  lemma WrittenAt<T>(calls: seq<Call<T>>, i: nat)
    requires i < |calls| && Wrote(calls[i])
    ensures Written(calls[i].v, calls)
  {
  }

  lemma OnAwait<T>(value: T, isReady: Sem<nat>, calls: seq<Call<T>>, i: nat)
    requires Ok(value, isReady, calls) && i < |calls| && calls[i].at.Await?
    ensures var calls' := calls[i := Moved(calls[i], if Waits(isReady) then Waiting else PassOn)];
      Ok(value, Down(isReady, i), calls') && Sum(Steps, calls') < Sum(Steps, calls)
  {
    hide Sum, Written;
    var c := Moved(calls[i], if Waits(isReady) then Waiting else PassOn);
    Recount(calls, i, c);
    WaitersDown(isReady, Blocked(calls), i);
    assert Blocked(calls[i := c]) == Blocked(calls)[i := Waits(isReady)];
    KeepsResults(value, calls, i, c);
  }

  /** The up of a set, which adds a token, or of a get, which returns the one it holds. */
  lemma OnUp<T>(value: T, isReady: Sem<nat>, calls: seq<Call<T>>, i: nat)
    requires Ok(value, isReady, calls) && i < |calls| && (calls[i].at.Signal? || calls[i].at.PassOn?)
    ensures var calls' := UpAt(calls, isReady, i, if calls[i].Set? then Done else Read);
      Ok(value, Up(isReady), calls') && Sum(Steps, calls') < Sum(Steps, calls)
  {
    hide Sum, Written, Waiters;
    var c := Moved(calls[i], if calls[i].Set? then Done else Read);
    var calls1 := calls[i := c];
    Recount(calls, i, c);
    assert Blocked(calls1) == Blocked(calls);
    KeepsResults(value, calls, i, c);
    NoWaiters(isReady, calls);
    if isReady.waiting != [] {
      WaitersUp(isReady, Blocked(calls));
      var j := isReady.waiting[0];
      var d := Moved(calls1[j], PassOn);
      Recount(calls1, j, d);
      assert Blocked(calls1[j := d]) == Blocked(calls)[j := false];
      KeepsResults(value, calls1, j, d);
    } else {
      UpEmpty(isReady, Blocked(calls));
    }
    SumHas(if c.Set? then Signals else Tokens, if c.Set? then calls1 else calls, i);
  }

  lemma NoWaiters<T>(m: Sem<nat>, calls: seq<Call<T>>)
    requires Waiters(m, Blocked(calls))
    ensures m.count > 0 ==> forall i :: 0 <= i < |calls| ==> !calls[i].at.Waiting?
  {
  }

  lemma UpEmpty(m: Sem<nat>, waits: seq<bool>)
    requires Waiters(m, waits) && m.waiting == []
    ensures Waiters(Up(m), waits)
  {
  }

  /** A get returns only after some set is through, and with a value that a set wrote. */
  lemma OnRead<T>(value: T, isReady: Sem<nat>, calls: seq<Call<T>>, i: nat)
    requires Ok(value, isReady, calls) && i < |calls| && calls[i].at.Read?
    ensures var calls' := calls[i := Get(Some(value), Done)];
      Ok(value, isReady, calls') && Sum(Steps, calls') < Sum(Steps, calls) && Written(value, calls)
  {
    hide Sum, Written, Waiters;
    var c := Get(Some(value), Done);
    var calls' := calls[i := c];
    Recount(calls, i, c);
    var k := SignalWrote(calls);
    KeepsWritten(value, calls, i, c);
    assert Blocked(calls') == Blocked(calls);
    forall j | 0 <= j < |calls'| && calls'[j].Get? && calls'[j].at.Done? && calls'[j].got.Some?
      ensures Written(calls'[j].got.value, calls')
    {
      if j != i { KeepsWritten(calls[j].got.value, calls, i, c); }
    }
  }

  lemma OnBegin<T>(value: T, isReady: Sem<nat>, calls: seq<Call<T>>, c: Call<T>)
    requires Ok(value, isReady, calls) && Shaped(c) && (c.at.Write? || c.at.Await?)
    ensures Ok(value, isReady, calls + [c])
  {
    hide Written;
    var calls' := calls + [c];
    forall t | t != Steps ensures Sum(t, calls') == Sum(t, calls) {
      TotalAppend(Weights(t, calls), 0);
      assert Weights(t, calls') == Weights(t, calls) + [0];
    }
    WaitersAppend(isReady, Blocked(calls));
    assert Blocked(calls') == Blocked(calls) + [false];
    forall v | Written(v, calls) ensures Written(v, calls') {
      var j := WriterOf(v, calls);
      assert calls'[j] == calls[j];
      WrittenAt(calls', j);
    }
    if j :| 0 <= j < |calls'| && Wrote(calls'[j]) {
      assert Wrote(calls[j]);
    }
  }

  lemma WriterOf<T>(v: T, calls: seq<Call<T>>) returns (j: nat)
    requires Written(v, calls)
    ensures j < |calls| && Wrote(calls[j]) && calls[j].v == v
  {
    j :| 0 <= j < |calls| && Wrote(calls[j]) && calls[j].v == v;
  }

  // ---- results

  /** With one set, once it is through: one token, in the count or in a getter's hands. */
  lemma OneToken<T>(value: T, isReady: Sem<nat>, calls: seq<Call<T>>, s: nat)
    requires Ok(value, isReady, calls) && s < |calls| && calls[s].Set? && calls[s].at.Done?
    requires forall i :: 0 <= i < |calls| && i != s ==> calls[i].Get?
    ensures isReady.count + Sum(Tokens, calls) == 1
    ensures forall i :: 0 <= i < |calls| && calls[i].Get? && calls[i].at.Done? ==> calls[i].got == Some(calls[s].v)
  {
    hide Waiters, Written;
    SumHas(Signals, calls, s);
    OnlySignal(calls, s);
    forall i | 0 <= i < |calls| && calls[i].Get? && calls[i].at.Done? ensures calls[i].got == Some(calls[s].v) {
      var j := WriterOf(calls[i].got.value, calls);
    }
  }

  lemma OnlySignal<T>(calls: seq<Call<T>>, s: nat)
    requires s < |calls| && forall i :: 0 <= i < |calls| && i != s ==> calls[i].Get?
    ensures Sum(Signals, calls) <= 1
  {
    var w := Weights(Signals, calls);
    TotalSet(w, s, 0);
    if Total(w[s := 0]) > 0 {
      var i := TotalSome(w[s := 0]);
    }
  }

  /** Before the first set is through, no get is. */
  lemma NoEarlyGet<T>(value: T, isReady: Sem<nat>, calls: seq<Call<T>>)
    requires Ok(value, isReady, calls)
    requires forall i :: 0 <= i < |calls| && calls[i].Set? ==> !calls[i].at.Done?
    ensures forall i :: 0 <= i < |calls| ==> !Through(calls[i])
  {
    hide Waiters, Written;
    if Sum(Signals, calls) > 0 {
      var i := SignalWrote(calls);
    }
  }

  /** No wake-up is lost: when nothing can move and there was a set, every get has returned. */
  lemma AllReturned<T>(value: T, isReady: Sem<nat>, calls: seq<Call<T>>, s: nat)
    requires Ok(value, isReady, calls) && s < |calls| && calls[s].Set?
    requires forall i :: 0 <= i < |calls| ==> calls[i].at.Waiting? || calls[i].at.Done?
    ensures forall i :: 0 <= i < |calls| ==> calls[i].at.Done?
  {
    hide Waiters, Written;
    SumHas(Signals, calls, s);
    NoWaiters(isReady, calls);
    if Sum(Tokens, calls) > 0 {
      var i := TotalSome(Weights(Tokens, calls));
    }
  }

  // ---- the future and its callers

  datatype Move<T> = NewSet(v: T) | NewGet | Step(i: nat)

  predicate Stopped<T>(c: Call<T>) { c.at.Waiting? || c.at.Done? }

  datatype State<T> = State(value: T, isReady: Sem<nat>, calls: seq<Call<T>>)

  function Next<T>(s: State<T>, m: Move<T>): State<T> {
    match m
    case NewSet(v) => s.(calls := s.calls + [Set(v, Write)])
    case NewGet => s.(calls := s.calls + [Get(None, Await)])
    case Step(i) => if i < |s.calls| then NextOf(s, i) else s
  }

  /** The next step of call i, a line of set or get; one that waits or is done stays as it is. */
  function NextOf<T>(s: State<T>, i: nat): State<T>
    requires i < |s.calls|
  {
    var c := s.calls[i];
    match c.at
    case Write => if c.Set? then s.(value := c.v, calls := s.calls[i := Moved(c, Signal)]) else s
    case Signal => s.(isReady := Up(s.isReady), calls := UpAt(s.calls, s.isReady, i, Done))
    case Await =>
      s.(isReady := Down(s.isReady, i), calls := s.calls[i := Moved(c, if Waits(s.isReady) then Waiting else PassOn)])
    case PassOn => s.(isReady := Up(s.isReady), calls := UpAt(s.calls, s.isReady, i, Read))
    case Read => if c.Get? then s.(calls := s.calls[i := Get(Some(s.value), Done)]) else s
    case _ => s
  }

  function Runs<T>(s: State<T>, moves: seq<Move<T>>): State<T>
    decreases |moves|
  {
    if moves == [] then s else Next(Runs(s, moves[..|moves| - 1]), moves[|moves| - 1])
  }

  lemma RunsSnoc<T>(s: State<T>, moves: seq<Move<T>>, m: Move<T>)
    ensures Runs(s, moves + [m]) == Next(Runs(s, moves), m)
  {
    assert (moves + [m])[..|moves|] == moves;
  }

  /** What a call is: a set of a value, or a get. */
  function Kind<T>(c: Call<T>): Option<T> { if c.Set? then Some(c.v) else None }

  function Kinds<T>(calls: seq<Call<T>>): seq<Option<T>> {
    seq(|calls|, (i: nat) requires i < |calls| => Kind(calls[i]))
  }

  function Started<T>(m: Move<T>): seq<Option<T>> {
    match m case NewSet(v) => [Some(v)] case NewGet => [None] case _ => []
  }

  /** The calls that a schedule starts, in order */
  function Asked<T>(moves: seq<Move<T>>): seq<Option<T>>
    decreases |moves|
  {
    if moves == [] then []
    else Asked(moves[..|moves| - 1]) + Started(moves[|moves| - 1])
  }

  /** The calls are those there were, and the ones that the schedule starts, each set with its value. */
  lemma {:induction false} CallsAre<T>(s: State<T>, moves: seq<Move<T>>)
    ensures Kinds(Runs(s, moves).calls) == Kinds(s.calls) + Asked(moves)
    decreases |moves|
  {
    if moves != [] {
      CallsAre(s, moves[..|moves| - 1]);
      KindsNext(Runs(s, moves[..|moves| - 1]), moves[|moves| - 1]);
    }
  }

  lemma KindsNext<T>(s: State<T>, m: Move<T>)
    ensures Kinds(Next(s, m).calls)
      == Kinds(s.calls) + Started(m)
  {
  }

  /** An up lets a call go on that waits. */
  lemma UpFirst<T>(isReady: Sem<nat>, calls: seq<Call<T>>)
    requires Waiters(isReady, Blocked(calls)) && isReady.waiting != []
    ensures isReady.waiting[0] < |calls| && calls[isReady.waiting[0]].at.Waiting?
  {
    WaitersUp(isReady, Blocked(calls));
  }

  /** The same calls, however far they got; those that are done stay as they are. */
  ghost predicate SameCalls<T>(calls: seq<Call<T>>, calls': seq<Call<T>>) {
    && |calls'| == |calls|
    && (forall i :: 0 <= i < |calls| ==> calls'[i].Set? == calls[i].Set?)
    && (forall i :: 0 <= i < |calls| && calls[i].Set? ==> calls'[i].v == calls[i].v)
    && (forall i :: 0 <= i < |calls| && calls[i].at.Done? ==> calls'[i] == calls[i])
  }

  lemma StepSame<T>(s: State<T>, i: nat)
    requires Ok(s.value, s.isReady, s.calls) && i < |s.calls|
    ensures SameCalls(s.calls, NextOf(s, i).calls)
  {
    hide Sum, Waiters, Written, Results;
    assert Shaped(s.calls[i]);
    if s.isReady.waiting != [] { UpFirst(s.isReady, s.calls); }
  }

  class Future<T> {
    var value: T
    var isReady: Sem<nat>
    var calls: seq<Call<T>>

    ghost predicate Valid()
      reads this
    {
      Ok(value, isReady, calls)
    }

    ghost function Now(): State<T>
      reads this
    {
      State(value, isReady, calls)
    }

    constructor (initial: T)
      ensures Valid() && Now() == State(initial, Created(0), [])
    {
      value, isReady, calls := initial, Created(0), [];
    }

    method Perform(m: Move<T>)
      requires Valid()
      modifies this
      ensures Valid() && Now() == Next(old(Now()), m)
      ensures m.Step? ==> SameCalls(old(calls), calls)
      ensures m.Step? && m.i < |calls| && !Stopped(old(calls)[m.i]) ==> Sum(Steps, calls) < old(Sum(Steps, calls))
    {
      hide Ok, Sum, NextOf;
      match m
      case NewSet(v) =>
        OnBegin(value, isReady, calls, Set(v, Write));
        calls := calls + [Set(v, Write)];
      case NewGet =>
        OnBegin(value, isReady, calls, Get(None, Await));
        calls := calls + [Get(None, Await)];
      case Step(i) =>
        if i < |calls| {
          OneStep(i);
        }
    }

    /** The next step of call i: a line of set or get. */
    method OneStep(i: nat)
      requires Valid() && i < |calls|
      modifies this
      ensures Valid() && Now() == NextOf(old(Now()), i) && SameCalls(old(calls), calls)
      ensures !Stopped(old(calls)[i]) ==> Sum(Steps, calls) < old(Sum(Steps, calls))
    {
      hide Sum, Waiters, Written, SameCalls;
      StepSame(Now(), i);
      var c := calls[i];
      assert Shaped(c);
      match c.at
      case Write =>
        OnWrite(value, isReady, calls, i);
        value, calls := c.v, calls[i := Moved(c, Signal)];
      case Signal =>
        OnUp(value, isReady, calls, i);
        isReady, calls := Up(isReady), UpAt(calls, isReady, i, Done);
      case Await =>
        OnAwait(value, isReady, calls, i);
        isReady, calls := Down(isReady, i), calls[i := Moved(c, if Waits(isReady) then Waiting else PassOn)];
      case PassOn =>
        OnUp(value, isReady, calls, i);
        isReady, calls := Up(isReady), UpAt(calls, isReady, i, Read);
      case Read =>
        OnRead(value, isReady, calls, i);
        calls := calls[i := Get(Some(value), Done)];
      case _ =>
    }

    /** Any schedule of any callers. */
    method Run(schedule: seq<Move<T>>)
      requires Valid()
      modifies this
      ensures Valid() && Now() == Runs(old(Now()), schedule)
    {
      hide Ok, Next;
      for k := 0 to |schedule|
        invariant Valid() && Now() == Runs(old(Now()), schedule[..k])
      {
        Perform(schedule[k]);
        RunsSnoc(old(Now()), schedule[..k], schedule[k]);
        assert schedule[..k] + [schedule[k]] == schedule[..k + 1];
      }
      assert schedule[..|schedule|] == schedule;
    }

    /**
      Let the calls take their steps in any order: after finitely many steps, `moves`, none can
      move, and if there is a set then every get has returned; with one set, its value.
    */
    method Settle() returns (ghost moves: seq<Move<T>>)
      requires Valid()
      modifies this
      ensures Valid() && SameCalls(old(calls), calls)
      ensures Now() == Runs(old(Now()), moves) && forall k :: 0 <= k < |moves| ==> moves[k].Step?
      ensures (exists s :: 0 <= s < |calls| && old(calls)[s].Set?) ==> forall i :: 0 <= i < |calls| ==>
        calls[i].at.Done?
      ensures forall s ::
        0 <= s < |calls| && old(calls)[s].Set? && (forall i :: 0 <= i < |calls| && i != s ==> old(calls)[i].Get?) ==>
        forall i :: 0 <= i < |calls| && i != s ==> calls[i] == Get(Some(old(calls)[s].v), Done)
    {
      hide Ok, Sum, Next;
      moves := [];
      while exists i :: 0 <= i < |calls| && !Stopped(calls[i])
        invariant Valid() && SameCalls(old(calls), calls)
        invariant Now() == Runs(old(Now()), moves) && forall k :: 0 <= k < |moves| ==> moves[k].Step?
        decreases Sum(Steps, calls)
      {
        var i :| 0 <= i < |calls| && !Stopped(calls[i]);
        Perform(Step(i));
        RunsSnoc(old(Now()), moves, Step(i));
        moves := moves + [Step(i)];
      }
      forall s | 0 <= s < |calls| && calls[s].Set? ensures forall i :: 0 <= i < |calls| ==> calls[i].at.Done? {
        AllReturned(value, isReady, calls, s);
      }
      forall s | 0 <= s < |calls| && calls[s].Set? && (forall i :: 0 <= i < |calls| && i != s ==> calls[i].Get?)
        ensures forall i :: 0 <= i < |calls| && i != s ==> calls[i] == Get(Some(calls[s].v), Done)
      {
        OneToken(value, isReady, calls, s);
      }
    }
  }
}
