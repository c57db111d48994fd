/**
 The values for which the flat-combining priority queue keeps its promise, exactly: runs with any other
 value whose calls and returns are not those of a priority queue.
 */
module FlatCombiningHeapLimits {
  import opened Linearizability
  import opened Options
  import opened Slots
  import PQ = PriorityQueue
  import opened FlatCombining
  import opened FlatCombiningProofs
  import opened FlatCombiningRuns
  import opened FlatCombiningHeap

  type HeapState = State<multiset<int>>

  // ---------------------------------------------------------------- one thread

  lemma Minimum(v: int)
    ensures PQ.Apply(multiset{v}, Remove) == (multiset{}, v)
    ensures PQ.Apply(multiset{}, Add(v)) == (multiset{v}, 0)
  {
    PQ.MinUnique(multiset{v}, v);
    assert multiset{v} - multiset{v} == multiset{} && multiset{} + multiset{v} == multiset{v};
  }

  /** An `add` that runs alone puts its value into the heap exactly when the value is positive; it answers true either
      way. */
  lemma SoloAdd(v: int, ops: set<Op>) returns (s: HeapState, x: int)
    requires Add(v) in ops
    ensures Resting(HEAP, s, ops, 1, x, if v > 0 then multiset{v} else multiset{}, [Call(0, Add(v)), Ret(0, 0)])
  {
    x := if IsRequest(v) then 0 else v;
    Minimum(v);
    s := FirstOp(HEAP, ops, 1, Add(v), if v > 0 then multiset{v} else multiset{}, x);
  }

  // ---------------------------------------------------------------- two threads

  /** Both slots are linked, that of thread 1 in front; thread 0 has left. */
  ghost predicate Pair<S>(s: State<S>, th: Thread, x: int, y: int, obj: S, lock: bool, h: History) {
    && |s.threads| == 2 && |s.slots| == 3 && s.threads[1] == th
    && s.tail == 2 && s.slots[0].next.None? && s.slots[1] == Slot(x, Some(0)) && s.slots[2] == Slot(y, Some(1))
    && s.lock == lock && s.obj == obj && s.history == h
  }

  /** Thread 1 is inside `op`. */
  ghost predicate PairAt<S>(k: Service<S>, s: State<S>, ops: set<Op>, op: Op, pc: PC, x: int, y: int, obj: S,
                            lock: bool, h: History) {
    Reached(k, 2, ops, s) && op in ops && Pair(s, In(op, pc), x, y, obj, lock, h)
  }

  ghost predicate PairLeft<S>(k: Service<S>, s: State<S>, ops: set<Op>, x: int, y: int, obj: S, h: History) {
    Reached(k, 2, ops, s) && Pair(s, Out(true), x, y, obj, false, h)
  }

  lemma PairJoins<S>(k: Service<S>, s: State<S>, ops: set<Op>, op: Op, x: int, obj: S, h: History)
    returns (s': State<S>)
    requires Resting(k, s, ops, 2, x, obj, h) && op in ops
    ensures PairAt(k, s', ops, op, Post, x, NULL_VALUE, obj, false, h + [Call(1, op)])
  {
    s' := Joins(k, 2, ops, s, 1, op);
  }

  lemma PairCalls<S>(k: Service<S>, s: State<S>, ops: set<Op>, op: Op, x: int, y: int, obj: S, h: History)
    returns (s': State<S>)
    requires PairLeft(k, s, ops, x, y, obj, h) && op in ops
    ensures PairAt(k, s', ops, op, Post, x, y, obj, false, h + [Call(1, op)])
  {
    s' := Calls(k, 2, ops, s, 1, op);
  }

  lemma PairLocks<S>(k: Service<S>, s: State<S>, ops: set<Op>, op: Op, x: int, y: int, obj: S, h: History)
    returns (s': State<S>)
    requires PairAt(k, s, ops, op, Post, x, y, obj, false, h) && k.reps(2) > 0
    ensures PairAt(k, s', ops, op, ScanNext(0, 0, 2), x, RequestOf(op), obj, true, h)
  {
    s' := Asks(k, 2, ops, s, 1, op);
    s' := Locks(k, 2, ops, s', 1, op);
  }

  /** It serves its own request. */
  lemma PairServes<S>(k: Service<S>, s: State<S>, ops: set<Op>, op: Op, x: int, y: int, obj: S, h: History, obj': S,
                      a: int) returns (s': State<S>)
    requires PairAt(k, s, ops, op, Post, x, y, obj, false, h) && k.reps(2) > 0
    requires IsRequest(RequestOf(op)) && k.serve(obj, RequestOf(op)) == (obj', Some(a))
    ensures PairAt(k, s', ops, op, ScanNext(0, 1, 1), x, -a, obj', true, h)
  {
    s' := PairLocks(k, s, ops, op, x, y, obj, h);
    s' := Serves(k, 2, ops, s', 1, op, 0, 0, 2, 1, obj', a);
  }

  /** The word in the other slot is no request: the scan is its last. */
  lemma PairEnds<S>(k: Service<S>, s: State<S>, ops: set<Op>, op: Op, x: int, y: int, obj: S, h: History, i: nat,
                    m: nat) returns (s': State<S>)
    requires PairAt(k, s, ops, op, ScanNext(i, m, 1), x, y, obj, true, h) && !IsRequest(x) && m < 2
    ensures PairLeft(k, s', ops, x, y, k.leave(obj), h + [Ret(1, Result(op, y))])
  {
    ThresholdAbove(s);
    s' := Passes(k, 2, ops, s, 1, op, i, m, 1, 0);
    s' := Ends(k, 2, ops, s', 1, op, i, m);
    s' := PairLeaves(k, s', ops, op, x, y, obj, h);
  }

  lemma PairLeaves<S>(k: Service<S>, s: State<S>, ops: set<Op>, op: Op, x: int, y: int, obj: S, h: History)
    returns (s': State<S>)
    requires PairAt(k, s, ops, op, Unlock, x, y, obj, true, h)
    ensures PairLeft(k, s', ops, x, y, k.leave(obj), h + [Ret(1, Result(op, y))])
  {
    s' := Leaves(k, 2, ops, s, 1, op);
  }

  /** The stale request in the other slot is served, and the scan is repeated, past the slot of thread 1. */
  lemma PairStale<S>(k: Service<S>, s: State<S>, ops: set<Op>, op: Op, x: int, y: int, obj: S, h: History, obj': S,
                     a: int) returns (s': State<S>)
    requires PairAt(k, s, ops, op, ScanNext(0, 1, 1), x, y, obj, true, h) && !IsRequest(y) && k.reps(2) == 2
    requires IsRequest(x) && k.serve(obj, x) == (obj', Some(a))
    ensures PairAt(k, s', ops, op, ScanNext(1, 0, 1), -a, y, obj', true, h)
  {
    ThresholdAbove(s);
    s' := Serves(k, 2, ops, s, 1, op, 0, 1, 1, 0, obj', a);
    s' := Repeats(k, 2, ops, s', 1, op, 0, 2);
    s' := Passes(k, 2, ops, s', 1, op, 1, 0, 2, 1);
  }

  // ---------------------------------------------------------------- the run with 2147483646

  const BIG: int := 2147483646

  /** Thread 0 adds and removes 2147483646; the answer stays in its slot, and reads as a request. */
  lemma BigLeft(ops: set<Op>) returns (s: HeapState)
    requires Add(BIG) in ops && Remove in ops
    ensures Resting(HEAP, s, ops, 2, DEQ_VALUE, multiset{},
                    [Call(0, Add(BIG)), Ret(0, 0)] + [Call(0, Remove), Ret(0, BIG)])
  {
    Minimum(BIG);
    s := FirstOp(HEAP, ops, 2, Add(BIG), multiset{BIG}, 0);
    s := NextOp(HEAP, s, ops, 2, 0, multiset{BIG}, [Call(0, Add(BIG)), Ret(0, 0)], Remove, multiset{}, DEQ_VALUE);
  }

  /** Thread 1 adds 7; its scan serves the stale word too, which takes the 7 out again. */
  lemma SevenLost(s: HeapState, h: History, ops: set<Op>) returns (s': HeapState)
    requires Resting(HEAP, s, ops, 2, DEQ_VALUE, multiset{}, h) && Add(7) in ops
    ensures PairLeft(HEAP, s', ops, -7, 0, multiset{}, h + [Call(1, Add(7)), Ret(1, 0)])
  {
    var h', none, one := h + [Call(1, Add(7))], multiset{}, multiset{7};
    Minimum(7);
    s' := PairJoins(HEAP, s, ops, Add(7), DEQ_VALUE, none, h);
    s' := PairServes(HEAP, s', ops, Add(7), DEQ_VALUE, NULL_VALUE, none, h', one, 0);
    s' := PairStale(HEAP, s', ops, Add(7), DEQ_VALUE, 0, one, h', none, 7);
    s' := PairEnds(HEAP, s', ops, Add(7), -7, 0, none, h', 1, 0);
    assert h' + [Ret(1, 0)] == h + [Call(1, Add(7)), Ret(1, 0)];
  }

  /** Thread 1 finds the queue empty. */
  lemma NothingThere(s: HeapState, h: History, ops: set<Op>) returns (s': HeapState)
    requires PairLeft(HEAP, s, ops, -7, 0, multiset{}, h) && Remove in ops
    ensures Reached(HEAP, 2, ops, s') && s'.history == h + [Call(1, Remove), Ret(1, 0)]
  {
    var h', none := h + [Call(1, Remove)], multiset{};
    s' := PairCalls(HEAP, s, ops, Remove, -7, 0, none, h);
    s' := PairServes(HEAP, s', ops, Remove, -7, 0, none, h', none, 0);
    s' := PairEnds(HEAP, s', ops, Remove, -7, 0, none, h', 0, 1);
    assert h' + [Ret(1, 0)] == h + [Call(1, Remove), Ret(1, 0)];
  }

  // ---------------------------------------------------------------- not a priority queue

  lemma OneByOneMore(turns: seq<Turn<Op, int>>, turn: Turn<Op, int>)
    ensures OneByOne(turns + [turn]) == OneByOne(turns) + [Call(turn.t, turn.op), Ret(turn.t, turn.res)]
  {
    assert (turns + [turn])[..|turns|] == turns;
  }

  lemma AnswersMore(turns: seq<Turn<Op, int>>, turn: Turn<Op, int>)
    ensures AfterTurns(PQ.Apply, multiset{}, turns + [turn])
      == PQ.Apply(AfterTurns(PQ.Apply, multiset{}, turns), turn.op).0
    ensures AnswersRight(PQ.Apply, multiset{}, turns + [turn]) ==>
      turn.res == PQ.Apply(AfterTurns(PQ.Apply, multiset{}, turns), turn.op).1
  {
    assert (turns + [turn])[..|turns|] == turns;
  }

  /** Operations one after the other whose answers are not those of the queue. */
  lemma WrongAnswers(n: nat, ops: set<Op>, s: HeapState, turns: seq<Turn<Op, int>>) returns (sched: seq<Choice>)
    requires Reached(HEAP, n, ops, s) && s.history == OneByOne(turns) && !AnswersRight(PQ.Apply, multiset{}, turns)
    ensures Within(sched, ops) && !Linearizable(PQ.Apply, multiset{}, n, Run(HEAP, n, sched).history)
  {
    sched :| Run(HEAP, n, sched) == s && Within(sched, ops);
    if Linearizable(PQ.Apply, multiset{}, n, s.history) {
      OneByOneAnswers(PQ.Apply, multiset{}, n, turns);
    }
  }

  /** A value that is not positive is not there when it should be the minimum. */
  lemma NonPositiveFails(v: int) returns (sched: seq<Choice>)
    requires v <= 0
    ensures Within(sched, {Add(v), Add(1), Remove})
    ensures !Linearizable(PQ.Apply, multiset{}, 1, Run(HEAP, 1, sched).history)
  {
    var ops, a, b, r := {Add(v), Add(1), Remove}, Turn(0, Add(v), 0), Turn(0, Add(1), 0), Turn(0, Remove, 1);
    var s := NonPositiveRun(v, ops);
    AnswersMore([], a);
    AnswersMore([a], b);
    AnswersMore([a] + [b], r);
    assert [] + [a] == [a];
    PQ.MinUnique(multiset{} + multiset{v} + multiset{1}, v);
    sched := WrongAnswers(1, ops, s, [a] + [b] + [r]);
  }

  lemma NonPositiveRun(v: int, ops: set<Op>) returns (s: HeapState)
    requires v <= 0 && Add(v) in ops && Add(1) in ops && Remove in ops
    ensures Reached(HEAP, 1, ops, s)
    ensures s.history == OneByOne([Turn(0, Add(v), 0)] + [Turn(0, Add(1), 0)] + [Turn(0, Remove, 1)])
  {
    var a, b, r := Turn(0, Add(v), 0), Turn(0, Add(1), 0), Turn(0, Remove, 1);
    var h1 := [Call(0, Add(v)), Ret(0, 0)];
    var h2 := h1 + [Call(0, Add(1)), Ret(0, 0)];
    var x;
    s, x := SoloAdd(v, ops);
    Minimum(1);
    s := NextOp(HEAP, s, ops, 1, x, multiset{}, h1, Add(1), multiset{1}, 0);
    s := NextOp(HEAP, s, ops, 1, 0, multiset{1}, h2, Remove, multiset{}, -1);
    OneByOneMore([], a);
    OneByOneMore([a], b);
    OneByOneMore([a] + [b], r);
    assert [] + [a] == [a] && OneByOne([]) + h1 == h1;
  }

  /** The answer 2147483646 is taken for a request, and a value that nobody removed is gone. */
  lemma BigFails() returns (sched: seq<Choice>)
    ensures Within(sched, {Add(BIG), Add(7), Remove})
    ensures !Linearizable(PQ.Apply, multiset{}, 2, Run(HEAP, 2, sched).history)
  {
    var ops := {Add(BIG), Add(7), Remove};
    var a, r, b, q := Turn(0, Add(BIG), 0), Turn(0, Remove, BIG), Turn(1, Add(7), 0), Turn(1, Remove, 0);
    var s := BigRun(ops);
    AnswersMore([], a);
    AnswersMore([a], r);
    AnswersMore([a] + [r], b);
    AnswersMore([a] + [r] + [b], q);
    assert [] + [a] == [a];
    Minimum(BIG);
    Minimum(7);
    sched := WrongAnswers(2, ops, s, [a] + [r] + [b] + [q]);
  }

  lemma BigRun(ops: set<Op>) returns (s: HeapState)
    requires Add(BIG) in ops && Add(7) in ops && Remove in ops
    ensures Reached(HEAP, 2, ops, s)
    ensures s.history == OneByOne([Turn(0, Add(BIG), 0)] + [Turn(0, Remove, BIG)]
                                  + [Turn(1, Add(7), 0)] + [Turn(1, Remove, 0)])
  {
    var a, r, b, q := Turn(0, Add(BIG), 0), Turn(0, Remove, BIG), Turn(1, Add(7), 0), Turn(1, Remove, 0);
    var h1 := [Call(0, Add(BIG)), Ret(0, 0)];
    var h2 := h1 + [Call(0, Remove), Ret(0, BIG)];
    s := BigLeft(ops);
    s := SevenLost(s, h2, ops);
    s := NothingThere(s, h2 + [Call(1, Add(7)), Ret(1, 0)], ops);
    OneByOneMore([], a);
    OneByOneMore([a], r);
    OneByOneMore([a] + [r], b);
    OneByOneMore([a] + [r] + [b], q);
    assert [] + [a] == [a] && OneByOne([]) + h1 == h1;
  }

  /** Every value that is added is good, or is `v`. */
  ghost predicate GoodOr(sched: seq<Choice>, v: int) {
    forall i :: 0 <= i < |sched| ==> GoodOp(sched[i].op) || sched[i].op == Add(v)
  }

  /** The exact condition: all runs whose added values are good or `v` are runs of a priority queue if and only if `v`
      is good, that is, positive and not 2147483646. */
  lemma ExactValues(v: Int32)
    ensures (forall n: nat, sched :: GoodOr(sched, v) ==>
               Linearizable(PQ.Apply, multiset{}, n, Run(HEAP, n, sched).history)) <==> Good(v)
  {
    if Good(v) {
      forall n: nat, sched | GoodOr(sched, v)
        ensures Linearizable(PQ.Apply, multiset{}, n, Run(HEAP, n, sched).history)
      {
        HeapLinearizable(n, sched);
      }
    } else if v <= 0 {
      var sched := NonPositiveFails(v);
      assert GoodOr(sched, v);
    } else {
      var sched := BigFails();
      assert v == BIG && GoodOr(sched, v);
    }
  }
}
