/**
 The request and answer words of the flat-combining slots, All_Summer2017/testProject/data_structures/ITest.h,
 and what a combiner makes of the words it reads.
 */
module Slots {

  const INT_MIN: int := -0x8000_0000
  const INT_MAX: int := 0x7fff_ffff
  const NULL_VALUE: int := 0
  const DEQ_VALUE: int := INT_MIN + 2

  type Int32 = x: int | INT_MIN <= x <= INT_MAX

  /** What the callers of a flat-combining structure ask for. */
  datatype Op = Add(v: int) | Remove

  /** The words that a combiner serves: a positive value is to be added, `DEQ_VALUE` asks for a removal. */
  predicate IsRequest(x: int) { x > NULL_VALUE || x == DEQ_VALUE }

  /** The additions, in the order they were read. */
  function Enqs(xs: seq<int>): seq<int> {
    if xs == [] then [] else
    var rest := Enqs(xs[..|xs| - 1]);
    if xs[|xs| - 1] > NULL_VALUE then rest + [xs[|xs| - 1]] else rest
  }

  function Deqs(xs: seq<int>): nat {
    if xs == [] then 0 else Deqs(xs[..|xs| - 1]) + if xs[|xs| - 1] == DEQ_VALUE then 1 else 0
  }

  function Requests(xs: seq<int>): nat { Deqs(xs) + |Enqs(xs)| }

  /** Everything the first scans of a pass read. */
  function Flat(xss: seq<seq<int>>): seq<int> {
    if xss == [] then [] else Flat(xss[..|xss| - 1]) + xss[|xss| - 1]
  }

  lemma Snoc(xs: seq<int>, x: int)
    ensures Enqs(xs + [x]) == if x > NULL_VALUE then Enqs(xs) + [x] else Enqs(xs)
    ensures Deqs(xs + [x]) == Deqs(xs) + if x == DEQ_VALUE then 1 else 0
  {
    assert (xs + [x])[..|xs|] == xs;
  }

  lemma {:induction false} Concat(xs: seq<int>, ys: seq<int>)
    ensures Enqs(xs + ys) == Enqs(xs) + Enqs(ys) && Deqs(xs + ys) == Deqs(xs) + Deqs(ys)
  {
    if ys == [] {
      assert xs + ys == xs;
    } else {
      var n := |ys| - 1;
      Concat(xs, ys[..n]);
      assert xs + ys == xs + ys[..n] + [ys[n]] && ys == ys[..n] + [ys[n]];
      Snoc(xs + ys[..n], ys[n]);
    }
  }
}
