/** Sums over a sequence of counts, one for each of a number of calls in progress. */
module Tallies {
  function Total(w: seq<nat>): nat
    decreases |w|
  {
    if w == [] then 0 else Total(w[..|w| - 1]) + w[|w| - 1]
  }

  lemma {:induction false} TotalSet(w: seq<nat>, i: nat, x: nat)
    requires i < |w|
    ensures Total(w[i := x]) + w[i] == Total(w) + x
    decreases |w|
  {
    var front := w[..|w| - 1];
    if i == |w| - 1 {
      assert w[i := x][..|w| - 1] == front;
    } else {
      TotalSet(front, i, x);
      assert w[i := x][..|w| - 1] == front[i := x];
    }
  }

  lemma TotalAppend(w: seq<nat>, x: nat)
    ensures Total(w + [x]) == Total(w) + x
  {
    assert (w + [x])[..|w|] == w;
  }

  lemma {:induction false} TotalHas(w: seq<nat>, i: nat)
    requires i < |w|
    ensures Total(w) >= w[i]
    decreases |w|
  {
    if i < |w| - 1 { TotalHas(w[..|w| - 1], i); }
  }

  lemma {:induction false} TotalTwo(w: seq<nat>, i: nat, j: nat)
    requires i < j < |w|
    ensures Total(w) >= w[i] + w[j]
    decreases |w|
  {
    if j == |w| - 1 { TotalHas(w[..|w| - 1], i); } else { TotalTwo(w[..|w| - 1], i, j); }
  }

  lemma {:induction false} TotalSome(w: seq<nat>) returns (i: nat)
    requires Total(w) > 0
    ensures i < |w| && w[i] > 0
    decreases |w|
  {
    if w[|w| - 1] > 0 { i := |w| - 1; } else { i := TotalSome(w[..|w| - 1]); }
  }

  lemma {:induction false} TotalBounded(w: seq<nat>, v: seq<nat>, z: seq<nat>)
    requires |w| == |v| == |z| && forall i :: 0 <= i < |w| ==> w[i] + v[i] <= z[i]
    ensures Total(w) + Total(v) <= Total(z)
    decreases |w|
  {
    if w != [] { TotalBounded(w[..|w| - 1], v[..|w| - 1], z[..|w| - 1]); }
  }
}
