/** Sums of costs, and the calls that pay for the steps of a run. */
module Potential {
  import opened Linearizability

  function Sum(xs: seq<nat>): nat { if xs == [] then 0 else Sum(xs[..|xs| - 1]) + xs[|xs| - 1] }

  lemma {:induction false} SumUpdate(xs: seq<nat>, t: nat, x: nat)
    requires t < |xs|
    ensures Sum(xs[t := x]) + xs[t] == Sum(xs) + x
    decreases |xs|
  {
    var m := |xs| - 1;
    if t < m {
      SumUpdate(xs[..m], t, x);
      assert xs[t := x][..m] == xs[..m][t := x];
    } else {
      assert xs[t := x][..m] == xs[..m];
    }
  }

  /** No summand rises by more than `d`. */
  lemma {:induction false} SumRise(xs: seq<nat>, ys: seq<nat>, d: nat)
    requires |ys| == |xs| && forall u :: 0 <= u < |xs| ==> ys[u] <= xs[u] + d
    ensures Sum(ys) <= Sum(xs) + d * |xs|
  {
    if xs != [] {
      var m := |xs| - 1;
      SumRise(xs[..m], ys[..m], d);
      assert d * |xs| == d * m + d;
    }
  }

  lemma {:induction false} SumZero(xs: seq<nat>)
    requires forall u :: 0 <= u < |xs| ==> xs[u] == 0
    ensures Sum(xs) == 0
  {
    if xs != [] {
      SumZero(xs[..|xs| - 1]);
    }
  }

  function CallsIn<O, R>(history: seq<Action<O, R>>): nat {
    if history == [] then 0
    else CallsIn(history[..|history| - 1]) + if history[|history| - 1].Call? then 1 else 0
  }

  lemma OneMore<O, R>(history: seq<Action<O, R>>, x: Action<O, R>)
    ensures CallsIn(history + [x]) == CallsIn(history) + if x.Call? then 1 else 0
  {
    assert (history + [x])[..|history|] == history;
  }

  /** A step is paid for by the work it does, or by the call it makes. */
  lemma Paid(steps: nat, work: nat, work': nat, calls: nat, calls': nat, per: nat)
    requires steps + work <= calls * (per + 1)
    requires if calls' == calls + 1 then work' <= work + per else calls' == calls && work' < work
    ensures steps + 1 + work' <= calls' * (per + 1)
  {
    if calls' == calls + 1 {
      assert calls' * (per + 1) == calls * (per + 1) + per + 1;
    }
  }
}
