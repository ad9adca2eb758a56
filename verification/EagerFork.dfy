/**
  Processes on the eager machine: which of them may run while forks are under way, what each
  operation of a schedule then answers, and how a fork ends.
*/
module EagerFork {
  import opened Paging
  import opened EagerCopy
  import opened Options

  /** How many pages the nested loops of fork visit. */
  const PAGES: nat := 448 * 1024

  /** A fork under way: the loop has done the first `next` pages. */
  datatype Fork = Fork(parent: nat, next: nat)

  /** What the processes own, and the forks under way, by the child they make. */
  datatype Config = Config(owned: Spaces, forks: map<nat, Fork>)

  datatype Op =
    | Create
    | StartFork(parent: nat)
    | ForkStep(child: nat)
    | Load(d: nat, va: Word)
    | Store(d: nat, va: Word, x: Word)
    | Delete(d: nat)

  /** Process d runs user code: it is neither a child under construction nor waiting for one. */
  predicate CanRun(spaces: set<nat>, forks: map<nat, Fork>, d: nat) {
    d in spaces && d !in forks && forall c :: c in forks ==> forks[c].parent != d
  }

  /** The process that the operation names can run it now. */
  predicate Allows(spaces: set<nat>, forks: map<nat, Fork>, op: Op) {
    match op
    case Create => true
    case StartFork(parent) => CanRun(spaces, forks, parent)
    case ForkStep(child) => child in forks
    case Load(d, va) => CanRun(spaces, forks, d) && UserPage(PageOf(va))
    case Store(d, va, _) => CanRun(spaces, forks, d) && UserPage(PageOf(va))
    case Delete(d) => CanRun(spaces, forks, d)
  }

  ghost predicate Enabled(s: Config, op: Op) { Allows(s.owned.Keys, s.forks, op) }

  /** The event is the one that the operation stands for. */
  predicate Answers(op: Op, ev: Event) {
    match op
    case Create => ev.Created?
    case StartFork(parent) => ev.Forked? && ev.parent == parent
    case ForkStep(_) => ev == Internal
    case Load(d, va) => ev.Loaded? && ev.d == d && ev.va == va
    case Store(d, va, x) => ev == Stored(d, va, x)
    case Delete(d) => ev == Destroyed(d)
  }

  /** A fork takes one step for each page, and one more to let parent and child go. */
  function Advanced(forks: map<nat, Fork>, child: nat): map<nat, Fork> {
    if child !in forks then forks
    else if forks[child].next >= PAGES then forks - {child}
    else forks[child := Fork(forks[child].parent, forks[child].next + 1)]
  }

  function ForksAfter(forks: map<nat, Fork>, op: Op, ev: Event): map<nat, Fork> {
    match op
    case StartFork(parent) => if ev.Forked? then forks[ev.child := Fork(parent, 0)] else forks
    case ForkStep(child) => Advanced(forks, child)
    case _ => forks
  }

  /** An operation that is enabled happens; one that is not is passed over. */
  ghost predicate Steps(s: Config, op: Op, ev: Event, s': Config) {
    if Enabled(s, op)
    then Answers(op, ev) && Happens(s.owned, ev, s'.owned) && s'.forks == ForksAfter(s.forks, op, ev)
    else ev == Internal && s' == s
  }

  /** s' follows from s when the operations take their turns, with these answers. */
  ghost predicate Follows(s: Config, ops: seq<Op>, trace: seq<Event>, s': Config)
    decreases |ops|
  {
    if ops == [] then trace == [] && s' == s
    else
      var n := |ops| - 1;
      && |trace| == |ops|
      && exists mid :: Follows(s, ops[..n], trace[..n], mid) && Steps(mid, ops[n], trace[n], s')
  }

  lemma FollowsSnoc(s: Config, ops: seq<Op>, trace: seq<Event>, mid: Config, op: Op, ev: Event, s': Config)
    requires Follows(s, ops, trace, mid) && |trace| == |ops| && Steps(mid, op, ev, s')
    ensures Follows(s, ops + [op], trace + [ev], s')
  {
    hide Steps;
    assert (ops + [op])[..|ops|] == ops && (trace + [ev])[..|ops|] == trace;
  }

  /** The events alone are a run of the eager machine. */
  lemma {:induction false} FollowsRuns(s: Config, ops: seq<Op>, trace: seq<Event>, s': Config)
    requires Follows(s, ops, trace, s')
    ensures Runs(s.owned, trace, s'.owned)
    decreases |ops|
  {
    hide Happens, Answers, Allows;
    if ops != [] {
      var n := |ops| - 1;
      var mid :| Follows(s, ops[..n], trace[..n], mid) && Steps(mid, ops[n], trace[n], s');
      FollowsRuns(s, ops[..n], trace[..n], mid);
      assert Happens(mid.owned, trace[n], s'.owned) by {
        if !Enabled(mid, ops[n]) { NothingHappens(mid.owned); }
      }
    }
  }

  lemma NothingHappens(s: Spaces)
    ensures Happens(s, Internal, s)
  {
  }

  // ---- how a fork ends

  /** Forks are between processes that exist, and none of these takes part in another fork. */
  ghost predicate Apart(spaces: set<nat>, forks: map<nat, Fork>) {
    && (forall c :: c in forks ==> c in spaces && forks[c].parent in spaces && forks[c].next <= PAGES)
    && (forall c, c' :: c in forks && c' in forks ==> forks[c].parent != c')
    && (forall c, c' :: c in forks && c' in forks && forks[c].parent == forks[c'].parent ==> c == c')
  }

  lemma StepsApart(s: Config, op: Op, ev: Event, s': Config)
    requires Apart(s.owned.Keys, s.forks) && Steps(s, op, ev, s')
    ensures Apart(s'.owned.Keys, s'.forks)
  {
  }

  /** The steps that child's fork takes in the schedule. */
  function StepsOf(ops: seq<Op>, child: nat): nat {
    if ops == [] then 0 else StepsOf(ops[..|ops| - 1], child) + (if ops[|ops| - 1] == ForkStep(child) then 1 else 0)
  }

  /** What a step does to a fork that goes on: one page if it is the fork's own step, nothing otherwise. */
  lemma StepForking(s: Config, op: Op, ev: Event, s': Config, child: nat)
    requires Apart(s.owned.Keys, s.forks) && child in s.forks && Steps(s, op, ev, s')
    requires op == ForkStep(child) ==> s.forks[child].next < PAGES
    ensures var f := s.forks[child];
      && child in s'.forks && s'.forks[child] == Fork(f.parent, if op == ForkStep(child) then f.next + 1 else f.next)
      && child in s'.owned && s'.owned[child] == s.owned[child]
      && f.parent in s'.owned && s'.owned[f.parent] == s.owned[f.parent]
  {
  }

  /**
    While a fork lasts, whatever else is scheduled: its loop has done as many pages as it had
    steps, neither process can run, and both own what they owned.
  */
  lemma {:induction false} ForkGoesOn(s: Config, ops: seq<Op>, trace: seq<Event>, s': Config, child: nat)
    requires Apart(s.owned.Keys, s.forks) && child in s.forks && Follows(s, ops, trace, s')
    requires s.forks[child].next + StepsOf(ops, child) <= PAGES
    ensures Apart(s'.owned.Keys, s'.forks)
    ensures var f := s.forks[child];
      && child in s'.forks && s'.forks[child] == Fork(f.parent, f.next + StepsOf(ops, child))
      && !CanRun(s'.owned.Keys, s'.forks, child) && !CanRun(s'.owned.Keys, s'.forks, f.parent)
      && child in s'.owned && s'.owned[child] == s.owned[child]
      && f.parent in s'.owned && s'.owned[f.parent] == s.owned[f.parent]
    decreases |ops|
  {
    hide Steps, Apart;
    if ops != [] {
      var n := |ops| - 1;
      var mid :| Follows(s, ops[..n], trace[..n], mid) && Steps(mid, ops[n], trace[n], s');
      ForkGoesOn(s, ops[..n], trace[..n], mid, child);
      StepForking(mid, ops[n], trace[n], s', child);
      StepsApart(mid, ops[n], trace[n], s');
    } else {
      assert Apart(s.owned.Keys, s.forks);
      StartedOwned(s, child);
    }
  }

  lemma StartedOwned(s: Config, child: nat)
    requires Apart(s.owned.Keys, s.forks) && child in s.forks
    ensures child in s.owned && s.forks[child].parent in s.owned
  {
  }

  /**
    The step after the last page ends the fork: from then on parent and child can run, and the
    child owns the pages that it was given when the fork started.
  */
  lemma ForkEnds(s: Config, ops: seq<Op>, trace: seq<Event>, s': Config, child: nat)
    requires Apart(s.owned.Keys, s.forks) && child in s.forks && Follows(s, ops, trace, s')
    requires ops != [] && ops[|ops| - 1] == ForkStep(child)
    requires s.forks[child].next + StepsOf(ops, child) == PAGES + 1
    ensures var f := s.forks[child];
      && child !in s'.forks
      && CanRun(s'.owned.Keys, s'.forks, child) && CanRun(s'.owned.Keys, s'.forks, f.parent)
      && s'.owned[child] == s.owned[child] && s'.owned[f.parent] == s.owned[f.parent]
  {
    var n := |ops| - 1;
    var mid :| Follows(s, ops[..n], trace[..n], mid) && Steps(mid, ops[n], trace[n], s');
    ForkGoesOn(s, ops[..n], trace[..n], mid, child);
  }

  /** A whole fork: its start, then PAGES + 1 steps of its loop among any operations of other processes. */
  lemma WholeFork(s: Config, parent: nat, child: nat, s1: Config, ops: seq<Op>, trace: seq<Event>, s2: Config)
    requires Apart(s.owned.Keys, s.forks) && Enabled(s, StartFork(parent))
    requires Steps(s, StartFork(parent), Forked(parent, child), s1) && Follows(s1, ops, trace, s2)
    requires StepsOf(ops, child) == PAGES + 1 && ops[|ops| - 1] == ForkStep(child)
    ensures CanRun(s2.owned.Keys, s2.forks, parent) && CanRun(s2.owned.Keys, s2.forks, child)
    ensures s2.owned[parent] == s.owned[parent] && s2.owned[child] == s.owned[parent]
  {
    StepsApart(s, StartFork(parent), Forked(parent, child), s1);
    ForkEnds(s1, ops, trace, s2, child);
  }

  // ---- what a process wrote it reads

  /** The process that runs the operation */
  function Actor(op: Op): Option<nat> {
    match op
    case Create => None
    case StartFork(parent) => Some(parent)
    case ForkStep(_) => None
    case Load(d, _) => Some(d)
    case Store(d, _, _) => Some(d)
    case Delete(d) => Some(d)
  }

  /** While others run, a process that takes part in no fork can run, and owns what it owned. */
  lemma {:induction false} OthersRun(s: Config, ops: seq<Op>, trace: seq<Event>, s': Config, d: nat)
    requires Apart(s.owned.Keys, s.forks) && CanRun(s.owned.Keys, s.forks, d) && Follows(s, ops, trace, s')
    requires forall i :: 0 <= i < |ops| ==> Actor(ops[i]) != Some(d)
    ensures Apart(s'.owned.Keys, s'.forks) && CanRun(s'.owned.Keys, s'.forks, d)
    ensures d in s.owned && d in s'.owned && s'.owned[d] == s.owned[d]
    decreases |ops|
  {
    hide Steps, Apart, CanRun;
    if ops != [] {
      var n := |ops| - 1;
      var mid :| Follows(s, ops[..n], trace[..n], mid) && Steps(mid, ops[n], trace[n], s');
      OthersRun(s, ops[..n], trace[..n], mid, d);
      OtherStep(mid, ops[n], trace[n], s', d);
      StepsApart(mid, ops[n], trace[n], s');
    } else {
      Exists(s, d);
    }
  }

  lemma Exists(s: Config, d: nat)
    requires CanRun(s.owned.Keys, s.forks, d)
    ensures d in s.owned
  {
  }

  lemma OtherStep(s: Config, op: Op, ev: Event, s': Config, d: nat)
    requires Apart(s.owned.Keys, s.forks) && CanRun(s.owned.Keys, s.forks, d) && Steps(s, op, ev, s')
    requires Actor(op) != Some(d)
    ensures CanRun(s'.owned.Keys, s'.forks, d) && d in s'.owned && s'.owned[d] == s.owned[d]
  {
  }

  /** A word that a process stored is what it loads next, whatever other processes do in between. */
  lemma ReadsBack(s: Config, d: nat, va: Word, x: Word, s1: Config, ops: seq<Op>, trace: seq<Event>, s2: Config,
                  ev: Event, s3: Config)
    requires Apart(s.owned.Keys, s.forks) && CanRun(s.owned.Keys, s.forks, d) && UserPage(PageOf(va))
    requires Steps(s, Store(d, va, x), Stored(d, va, x), s1) && Follows(s1, ops, trace, s2)
    requires forall i :: 0 <= i < |ops| ==> Actor(ops[i]) != Some(d)
    requires Steps(s2, Load(d, va), ev, s3)
    ensures ev == Loaded(d, va, x) && s3 == s2
  {
    StepsApart(s, Store(d, va, x), Stored(d, va, x), s1);
    OthersRun(s1, ops, trace, s2, d);
  }
}
