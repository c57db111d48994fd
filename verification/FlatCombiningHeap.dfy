/**
 The flat-combining priority queue of All_Summer2017/testProject/data_structures/FCPairingHeap.h: flat combining over
 the pairing heap. The heap is its multiset, which is how `PairHeap.Insert` and `PairHeap.DeleteMin` specify it.
 */
module FlatCombiningHeap {
  import opened Linearizability
  import opened Options
  import opened Slots
  import PQ = PriorityQueue
  import opened FlatCombining
  import opened FlatCombiningProofs

  /** Lines 54-64. */
  ghost function HeapServe(heap: multiset<int>, x: int): (multiset<int>, Option<int>) {
    var (heap', answer) := PQ.Apply(heap, OpAt(x));
    (heap', Some(answer))
  }

  /** A pass of `n` threads may make `n` scans, line 77. */
  ghost const HEAP: Service<multiset<int>> := Service(multiset{}, HeapServe, h => h, n => n)

  ghost predicate AllGood(heap: multiset<int>) { forall v :: v in heap ==> Good(v) }

  /** The heap keeps encodable values, and the answer is not a request. */
  lemma AnswerGood(heap: multiset<int>, op: Op)
    requires GoodOp(op) && AllGood(heap)
    ensures var (heap', answer) := PQ.Apply(heap, op); AllGood(heap') && Served(op, -answer)
  {
  }

  lemma HeapStep(s: State<multiset<int>>, c: seq<nat>, ch: Choice)
    requires Inv(s, c) && AllGood(s.obj)
    ensures AllGood(Step(HEAP, s, ch).obj) && ServesAs(HEAP, PQ.Apply, s.obj, Step(HEAP, s, ch).obj, s, ch)
  {
    if Asked(s, ch).Some? {
      var pc := s.threads[ch.t].pc;
      assert ThreadOk(s.slots, c, ch.t + 1, s.threads[ch.t]);
      RequestOwned(s, c, pc.curr);
      AnswerGood(s.obj, OpAt(pc.value));
    }
  }

  lemma {:induction false} RunMatch(n: nat, sched: seq<Choice>) returns (c: seq<nat>, xs: seq<Action<Op, int>>)
    requires GoodCalls(sched)
    ensures var s := Run(HEAP, n, sched);
      && Inv(s, c) && AllGood(s.obj) && |s.threads| == n
      && Exec(PQ.Apply, NewObject(multiset{}, n), xs) == Some(Abs(s.obj, s)) && Visible(xs) == s.history
  {
    if sched == [] {
      InitInv(HEAP, HEAP.first, n);
      c, xs := [0], [];
    } else {
      var s, ch := Run(HEAP, n, sched[..|sched| - 1]), sched[|sched| - 1];
      var ys;
      c, xs := RunMatch(n, sched[..|sched| - 1]);
      HeapStep(s, c, ch);
      c, ys := StepMatch(HEAP, PQ.Apply, s.obj, Step(HEAP, s, ch).obj, s, c, ch);
      ExecConcat(PQ.Apply, NewObject(multiset{}, n), xs, ys);
      xs := xs + ys;
    }
  }

  /** Whatever the schedule, the calls and returns are those of an atomic priority queue: each operation that
      returns was applied once, between its call and its return. */
  lemma HeapLinearizable(n: nat, sched: seq<Choice>)
    requires GoodCalls(sched)
    ensures Linearizable(PQ.Apply, multiset{}, n, Run(HEAP, n, sched).history)
  {
    var c, xs := RunMatch(n, sched);
  }
}
