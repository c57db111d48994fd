/** The sequential priority queue that the heap and its flat-combining wrapper are measured against. */
module PriorityQueue {
  import opened Slots

  /** The answer of an empty queue: `null`, which is 0. */
  const EMPTY: int := 0

  ghost predicate IsMin(s: multiset<int>, m: int) {
    m in s && forall k :: k in s ==> m <= k
  }

  lemma EmptyOrNot(s: multiset<int>)
    ensures s == multiset{} || exists k :: k in s
  {
    if forall k :: k !in s {
      assert s == multiset{};
    }
  }

  lemma {:induction false} MinExists(s: multiset<int>)
    requires s != multiset{}
    ensures exists m :: IsMin(s, m)
    decreases |s|
  {
    EmptyOrNot(s);
    var k :| k in s;
    var rest := s - multiset{k};
    if rest == multiset{} {
      assert s == multiset{k};
      assert IsMin(s, k);
    } else {
      MinExists(rest);
      var m :| IsMin(rest, m);
      MinWith(s, k, m);
    }
  }

  lemma MinWith(s: multiset<int>, k: int, m: int)
    requires k in s && IsMin(s - multiset{k}, m)
    ensures IsMin(s, if k <= m then k else m)
  {
    forall x | x in s ensures x == k || x in s - multiset{k} {}
  }

  ghost function Min(s: multiset<int>): (m: int)
    requires s != multiset{}
    ensures IsMin(s, m)
  {
    MinExists(s);
    var m :| IsMin(s, m);
    m
  }

  lemma MinUnique(s: multiset<int>, m: int)
    requires IsMin(s, m)
    ensures s != multiset{} && Min(s) == m
  {
    assert IsMin(s, Min(s));
  }

  /** An add answers 0; a removal answers the minimum, or `EMPTY`. */
  ghost function Apply(s: multiset<int>, op: Op): (multiset<int>, int) {
    match op
    case Add(v) => (s + multiset{v}, 0)
    case Remove => if s == multiset{} then (s, EMPTY) else (s - multiset{Min(s)}, Min(s))
  }

  /** The answers to a whole sequence of operations, and what is left. */
  ghost function RunOps(s: multiset<int>, ops: seq<Op>): (multiset<int>, seq<int>) {
    if ops == [] then (s, []) else
    var (s', answers) := RunOps(s, ops[..|ops| - 1]);
    var (s'', a) := Apply(s', ops[|ops| - 1]);
    (s'', answers + [a])
  }

  /** Operation `i` leads from contents `ks[i]` to `ks[i + 1]` with answer `answers[i]`. */
  ghost predicate AppliedAt(ks: seq<multiset<int>>, ops: seq<Op>, answers: seq<int>, i: nat) {
    i < |ops| && i < |answers| && i + 1 < |ks| && Apply(ks[i], ops[i]) == (ks[i + 1], answers[i])
  }

  lemma RunMore(s: multiset<int>, ops: seq<Op>, op: Op, s': multiset<int>, answers: seq<int>)
    requires RunOps(s, ops) == (s', answers)
    ensures RunOps(s, ops + [op]) == (Apply(s', op).0, answers + [Apply(s', op).1])
  {
    assert (ops + [op])[..|ops|] == ops;
  }

  /** The contents and the answers, operation by operation. */
  lemma {:induction false} RunByStep(ks: seq<multiset<int>>, ops: seq<Op>, answers: seq<int>, n: nat,
                                     before: seq<Op>, given: seq<int>)
    requires n <= |ops| && forall i :: 0 <= i < |ops| ==> AppliedAt(ks, ops, answers, i)
    requires |ks| > 0 && n <= |answers| && n < |ks| && before == ops[..n] && given == answers[..n]
    ensures RunOps(ks[0], before) == (ks[n], given)
  {
    if n > 0 {
      RunByStep(ks, ops, answers, n - 1, ops[..n - 1], answers[..n - 1]);
      assert AppliedAt(ks, ops, answers, n - 1);
      RunMore(ks[0], ops[..n - 1], ops[n - 1], ks[n - 1], answers[..n - 1]);
      assert before == ops[..n - 1] + [ops[n - 1]] && given == answers[..n - 1] + [answers[n - 1]];
    }
  }
}
