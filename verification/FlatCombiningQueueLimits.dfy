/**
 The clients for which the flat-combining FIFO queue keeps its promise, exactly: runs of all others in which a removal
 finds nothing although a value has been added and none removed.
 */
module FlatCombiningQueueLimits {
  import opened Linearizability
  import opened Options
  import opened Slots
  import opened FlatCombining
  import opened FlatCombiningProofs
  import opened FlatCombiningRuns
  import opened FlatCombiningQueue

  /** A service that keeps what it adds from the removals of the same pass. */
  ghost predicate Withholds<S>(k: Service<S>, v: int, one: S, two: S) {
    && k.serve(k.first, v) == (one, Some(0)) && k.serve(one, v) == (two, Some(0))
    && k.serve(k.first, DEQ_VALUE) == (k.first, Some(0)) && k.serve(two, DEQ_VALUE) == (two, Some(0))
    && k.leave(k.first) == k.first
  }

  lemma QueueWithholds(v: int)
    requires Good(v)
    ensures Withholds(QUEUE, v, Pass([[]], [v]), Pass([[]], [v, v]))
  {
    assert [] + [v] == [v] && [v] + [v] == [v, v];
  }

  /** Two additions, of which one returns; then a removal that finds nothing. */
  function Missed(a: nat, b: nat, e: nat, d: nat, v: int): History {
    [Call(a, Add(v)), Call(b, Add(v)), Ret(e, 0), Call(d, Remove), Ret(d, 0)]
  }

  // ---------------------------------------------------------------- two threads

  /** Both slots are linked, that of thread 1 in front. */
  ghost predicate Duo<S>(k: Service<S>, s: State<S>, ops: set<Op>, th: Thread, th': Thread, x: int, y: int, obj: S,
                         lock: bool, h: History) {
    && Reached(k, 2, ops, s) && |s.threads| == 2 && |s.slots| == 3 && s.threads[0] == th && s.threads[1] == th'
    && s.tail == 2 && s.slots[0].next.None? && s.slots[1] == Slot(x, Some(0)) && s.slots[2] == Slot(y, Some(1))
    && s.lock == lock && s.obj == obj && s.history == h
  }

  /** Both threads ask to add `v`. */
  lemma DuoAsks<S>(k: Service<S>, ops: set<Op>, v: int) returns (s: State<S>)
    requires Add(v) in ops
    ensures Duo(k, s, ops, In(Add(v), ReadLock(0)), In(Add(v), ReadLock(0)), v, v, k.first, false,
                [Call(0, Add(v)), Call(1, Add(v))])
  {
    s := DuoFirst(k, ops, v);
    s := Joins(k, 2, ops, s, 1, Add(v));
    s := Asks(k, 2, ops, s, 1, Add(v));
  }

  lemma DuoFirst<S>(k: Service<S>, ops: set<Op>, v: int) returns (s: State<S>)
    requires Add(v) in ops
    ensures Reached(k, 2, ops, s) && Single(s, 2, In(Add(v), ReadLock(0)), v, k.first, [Call(0, Add(v))])
  {
    Begin(k, 2, ops);
    s := Joins(k, 2, ops, Init(k, 2), 0, Add(v));
    s := Asks(k, 2, ops, s, 0, Add(v));
  }

  lemma DuoLocks<S>(k: Service<S>, s: State<S>, ops: set<Op>, op: Op, th: Thread, x: int, y: int, obj: S, h: History)
    returns (s': State<S>)
    requires Duo(k, s, ops, th, In(op, ReadLock(0)), x, y, obj, false, h) && op in ops && k.reps(2) > 0
    ensures Duo(k, s', ops, th, In(op, ScanNext(0, 0, 2)), x, y, obj, true, h)
  {
    s' := Locks(k, 2, ops, s, 1, op);
  }

  /** Thread 1 serves itself, and then thread 0, which is enough for another scan. */
  lemma DuoServesSelf<S>(k: Service<S>, s: State<S>, ops: set<Op>, v: int, one: S, th: Thread, h: History)
    returns (s': State<S>)
    requires Duo(k, s, ops, th, In(Add(v), ScanNext(0, 0, 2)), v, v, k.first, true, h) && Add(v) in ops && v > 0
    requires k.serve(k.first, v) == (one, Some(0))
    ensures Duo(k, s', ops, th, In(Add(v), ScanNext(0, 1, 1)), v, 0, one, true, h)
  {
    s' := Serves(k, 2, ops, s, 1, Add(v), 0, 0, 2, 1, one, 0);
  }

  lemma DuoServesOther<S>(k: Service<S>, s: State<S>, ops: set<Op>, v: int, one: S, two: S, th: Thread, h: History)
    returns (s': State<S>)
    requires Duo(k, s, ops, th, In(Add(v), ScanNext(0, 1, 1)), v, 0, one, true, h) && Add(v) in ops && v > 0
    requires k.serve(one, v) == (two, Some(0))
    ensures Duo(k, s', ops, th, In(Add(v), ScanNext(0, 2, 0)), 0, 0, two, true, h)
  {
    s' := Serves(k, 2, ops, s, 1, Add(v), 0, 1, 1, 0, two, 0);
  }

  lemma DuoRepeats<S>(k: Service<S>, s: State<S>, ops: set<Op>, op: Op, th: Thread, obj: S, h: History)
    returns (s': State<S>)
    requires Duo(k, s, ops, th, In(op, ScanNext(0, 2, 0)), 0, 0, obj, true, h) && op in ops && k.reps(2) == 2
    ensures Duo(k, s', ops, th, In(op, ScanNext(1, 0, 1)), 0, 0, obj, true, h)
  {
    ThresholdAbove(s);
    s' := Repeats(k, 2, ops, s, 1, op, 0, 2);
    s' := Passes(k, 2, ops, s', 1, op, 1, 0, 2, 1);
  }

  /** Thread 0 returns, and asks for a removal. */
  lemma DuoReturns<S>(k: Service<S>, s: State<S>, ops: set<Op>, v: int, th: Thread, obj: S, h: History)
    returns (s': State<S>)
    requires Duo(k, s, ops, In(Add(v), ReadLock(0)), th, 0, 0, obj, true, h) && Add(v) in ops
    ensures Duo(k, s', ops, Out(true), th, 0, 0, obj, true, h + [Ret(0, 0)])
  {
    s' := Returns(k, 2, ops, s, 0, Add(v));
  }

  lemma DuoRemoves<S>(k: Service<S>, s: State<S>, ops: set<Op>, th: Thread, obj: S, h: History) returns (s': State<S>)
    requires Duo(k, s, ops, Out(true), th, 0, 0, obj, true, h) && Remove in ops
    ensures Duo(k, s', ops, In(Remove, ReadLock(0)), th, DEQ_VALUE, 0, obj, true, h + [Call(0, Remove)])
  {
    s' := Calls(k, 2, ops, s, 0, Remove);
    s' := Asks(k, 2, ops, s', 0, Remove);
  }

  /** The second scan answers that there is nothing. */
  lemma DuoMisses<S>(k: Service<S>, s: State<S>, ops: set<Op>, op: Op, obj: S, h: History) returns (s': State<S>)
    requires Duo(k, s, ops, In(Remove, ReadLock(0)), In(op, ScanNext(1, 0, 1)), DEQ_VALUE, 0, obj, true, h)
    requires op in ops && Remove in ops && k.serve(obj, DEQ_VALUE) == (obj, Some(0))
    ensures Reached(k, 2, ops, s') && s'.history == h + [Ret(0, 0)]
  {
    s' := Serves(k, 2, ops, s, 1, op, 1, 0, 1, 0, obj, 0);
    s' := Returns(k, 2, ops, s', 0, Remove);
  }

  lemma DuoRun<S>(k: Service<S>, ops: set<Op>, v: int, one: S, two: S) returns (s: State<S>)
    requires Add(v) in ops && Remove in ops && v > 0 && k.reps(2) == 2 && Withholds(k, v, one, two)
    ensures Reached(k, 2, ops, s) && s.history == Missed(0, 1, 0, 0, v)
  {
    var h := [Call(0, Add(v)), Call(1, Add(v))];
    var waits := In(Add(v), ReadLock(0));
    s := DuoAsks(k, ops, v);
    s := DuoLocks(k, s, ops, Add(v), waits, v, v, k.first, h);
    s := DuoServesSelf(k, s, ops, v, one, waits, h);
    s := DuoServesOther(k, s, ops, v, one, two, waits, h);
    s := DuoRepeats(k, s, ops, Add(v), waits, two, h);
    s := DuoReturns(k, s, ops, v, In(Add(v), ScanNext(1, 0, 1)), two, h);
    s := DuoRemoves(k, s, ops, In(Add(v), ScanNext(1, 0, 1)), two, h + [Ret(0, 0)]);
    s := DuoMisses(k, s, ops, Add(v), two, h + [Ret(0, 0)] + [Call(0, Remove)]);
  }

  // ---------------------------------------------------------------- three threads

  /** Three slots are linked, that of thread 2 in front. */
  ghost predicate Trio<S>(k: Service<S>, s: State<S>, n: nat, ops: set<Op>, th: Thread, th': Thread, th'': Thread,
                          x: int, y: int, z: int, obj: S, lock: bool, h: History) {
    && Reached(k, n, ops, s) && n >= 3 && |s.threads| == n && |s.slots| == n + 1
    && s.threads[0] == th && s.threads[1] == th' && s.threads[2] == th''
    && s.tail == 3 && s.slots[0].next.None? && s.slots[1] == Slot(x, Some(0)) && s.slots[2] == Slot(y, Some(1))
    && s.slots[3] == Slot(z, Some(2)) && s.lock == lock && s.obj == obj && s.history == h
  }

  lemma TrioFirst<S>(k: Service<S>, s: State<S>, n: nat, ops: set<Op>, v: int, obj: S, h: History)
    returns (s': State<S>)
    requires Resting(k, s, ops, n, 0, obj, h) && n >= 3 && Add(v) in ops
    ensures Reached(k, n, ops, s') && |s'.threads| == n && |s'.slots| == n + 1
    ensures s'.threads[0] == Out(true) && s'.threads[1] == In(Add(v), ReadLock(0)) && s'.threads[2] == Out(false)
    ensures s'.tail == 2 && s'.slots[0].next.None? && s'.slots[1] == Slot(0, Some(0)) && s'.slots[2] == Slot(v, Some(1))
    ensures !s'.lock && s'.obj == obj && s'.history == h + [Call(1, Add(v))]
  {
    s' := Joins(k, n, ops, s, 1, Add(v));
    s' := Asks(k, n, ops, s', 1, Add(v));
  }

  /** Thread 0 has a slot already; the two others ask to add `v`. */
  lemma TrioAsks<S>(k: Service<S>, s: State<S>, n: nat, ops: set<Op>, v: int, obj: S, h: History) returns (s': State<S>)
    requires Resting(k, s, ops, n, 0, obj, h) && n >= 3 && Add(v) in ops
    ensures Trio(k, s', n, ops, Out(true), In(Add(v), ReadLock(0)), In(Add(v), ReadLock(0)), 0, v, v, obj, false,
                 h + [Call(1, Add(v))] + [Call(2, Add(v))])
  {
    s' := TrioFirst(k, s, n, ops, v, obj, h);
    s' := Joins(k, n, ops, s', 2, Add(v));
    s' := Asks(k, n, ops, s', 2, Add(v));
  }

  /** Thread 1 serves thread 2, which returns. */
  lemma TrioServes<S>(k: Service<S>, s: State<S>, n: nat, ops: set<Op>, v: int, one: S, two: S, h: History)
    returns (s': State<S>)
    requires Trio(k, s, n, ops, Out(true), In(Add(v), ReadLock(0)), In(Add(v), ReadLock(0)), 0, v, v, k.first, false, h)
    requires Add(v) in ops && v > 0 && k.reps(n) > 0 && Withholds(k, v, one, two)
    ensures Trio(k, s', n, ops, Out(true), In(Add(v), ScanNext(0, 1, 2)), Out(true), 0, v, 0, one, true,
                 h + [Ret(2, 0)])
  {
    s' := Locks(k, n, ops, s, 1, Add(v));
    s' := Serves(k, n, ops, s', 1, Add(v), 0, 0, 3, 2, one, 0);
    s' := Returns(k, n, ops, s', 2, Add(v));
  }

  /** Thread 0 asks for a removal, in a slot that the scan has not come to. */
  lemma TrioRemoves<S>(k: Service<S>, s: State<S>, n: nat, ops: set<Op>, v: int, one: S, two: S, h: History)
    returns (s': State<S>)
    requires Trio(k, s, n, ops, Out(true), In(Add(v), ScanNext(0, 1, 2)), Out(true), 0, v, 0, one, true, h)
    requires Add(v) in ops && Remove in ops && v > 0 && Withholds(k, v, one, two)
    ensures Trio(k, s', n, ops, In(Remove, ReadLock(0)), In(Add(v), ScanNext(0, 2, 1)), Out(true), DEQ_VALUE, 0, 0, two,
                 true, h + [Call(0, Remove)])
  {
    s' := Calls(k, n, ops, s, 0, Remove);
    s' := Asks(k, n, ops, s', 0, Remove);
    s' := Serves(k, n, ops, s', 1, Add(v), 0, 1, 2, 1, two, 0);
  }

  lemma TrioMisses<S>(k: Service<S>, s: State<S>, n: nat, ops: set<Op>, op: Op, th: Thread, obj: S, h: History)
    returns (s': State<S>)
    requires Trio(k, s, n, ops, In(Remove, ReadLock(0)), In(op, ScanNext(0, 2, 1)), th, DEQ_VALUE, 0, 0, obj, true, h)
    requires op in ops && Remove in ops && k.serve(obj, DEQ_VALUE) == (obj, Some(0))
    ensures Reached(k, n, ops, s') && s'.history == h + [Ret(0, 0)]
  {
    s' := Serves(k, n, ops, s, 1, op, 0, 2, 1, 0, obj, 0);
    s' := Returns(k, n, ops, s', 0, Remove);
  }

  lemma TrioRun<S>(k: Service<S>, n: nat, ops: set<Op>, v: int, one: S, two: S) returns (s: State<S>)
    requires n >= 3 && Add(v) in ops && Remove in ops && v > 0 && k.reps(n) > 0 && Withholds(k, v, one, two)
    ensures Reached(k, n, ops, s) && s.history == [Call(0, Remove), Ret(0, 0)] + Missed(1, 2, 2, 0, v)
  {
    var h := [Call(0, Remove), Ret(0, 0)];
    s := FirstOp(k, ops, n, Remove, k.first, 0);
    s := TrioAsks(k, s, n, ops, v, k.first, h);
    s := TrioServes(k, s, n, ops, v, one, two, h + [Call(1, Add(v))] + [Call(2, Add(v))]);
    s := TrioRemoves(k, s, n, ops, v, one, two, s.history);
    s := TrioMisses(k, s, n, ops, Add(v), Out(true), two, s.history);
  }

  // ---------------------------------------------------------------- not a queue

  /** Only additions of `v` are under way; one that has taken effect is in the queue. */
  ghost predicate Adding(a: Atomic<seq<int>, Op, int>, v: int, but: nat) {
    && (forall i :: 0 <= i < |a.obj| ==> a.obj[i] == v)
    && (forall u :: 0 <= u < |a.status| && u != but ==> AddingAt(a.status[u], v, a.obj))
  }

  ghost predicate AddingAt(st: Status<Op, int>, v: int, q: seq<int>) {
    match st
    case Idle => true
    case Pending(op) => op == Add(v)
    case Done(op, r) => op == Add(v) && q != []
  }

  /** Thread `d` removes from the empty queue. */
  ghost predicate RemovingAt(a: Atomic<seq<int>, Op, int>, d: nat) {
    && a.obj == [] && d < |a.status| && OthersIdle(a.status, d)
    && (a.status[d] == Pending(Remove) || a.status[d] == Done(Remove, 0))
  }

  /** Where the atomic queue can be after the first `m` actions of `Missed`, or before them. */
  ghost predicate Stage(a: Atomic<seq<int>, Op, int>, m: int, d: nat, v: int) {
    if m == -2 then a.obj == [] && OthersIdle(a.status, |a.status|)
    else if m == -1 then RemovingAt(a, d)
    else if m <= 2 then Adding(a, v, |a.status|)
    else if m == 3 then Adding(a, v, |a.status|) && a.obj != []
    else m == 4 && d < |a.status| && (|| (Adding(a, v, d) && a.obj != [] && a.status[d] == Pending(Remove))
                                      || a.status[d] == Done(Remove, v))
  }

  lemma StageLin(a: Atomic<seq<int>, Op, int>, m: int, d: nat, v: int, t: nat)
    requires Stage(a, m, d, v) && Act(Fifo, a, Lin(t)).Some?
    ensures Stage(Act(Fifo, a, Lin(t)).value, m, d, v)
  {
    assert t < |a.status| && a.status[t].Pending?;
    if m >= 0 && !(m == 4 && t == d) && !(m == 4 && a.status[d].Done?) {
      assert AddingAt(a.status[t], v, a.obj);
      AddingLin(a, v, if m == 4 then d else |a.status|, t);
    }
  }

  lemma AddingLin(a: Atomic<seq<int>, Op, int>, v: int, but: nat, t: nat)
    requires Adding(a, v, but) && t < |a.status| && t != but && a.status[t] == Pending(Add(v))
    ensures Act(Fifo, a, Lin(t)) == Some(Atomic(a.obj + [v], a.status[t := Done(Add(v), 0)]))
    ensures Adding(Act(Fifo, a, Lin(t)).value, v, but)
  {
    var b := Act(Fifo, a, Lin(t)).value;
    forall u | 0 <= u < |b.status| && u != but ensures AddingAt(b.status[u], v, b.obj) {
      if u != t { assert AddingAt(a.status[u], v, a.obj); }
    }
  }

  /** The history: a removal of thread `d` that is answered before anything is called, or not; then `Missed`. */
  function Full(p: bool, x: nat, y: nat, e: nat, d: nat, v: int): History {
    (if p then [Call(d, Remove), Ret(d, 0)] else []) + Missed(x, y, e, d, v)
  }

  lemma StageNext(a: Atomic<seq<int>, Op, int>, m: int, x: nat, y: nat, e: nat, d: nat, v: int)
    requires -2 <= m < 5 && v != 0 && Stage(a, m, d, v) && Act(Fifo, a, Full(true, x, y, e, d, v)[m + 2]).Some?
    ensures m < 4 && Stage(Act(Fifo, a, Full(true, x, y, e, d, v)[m + 2]).value, m + 1, d, v)
  {
  }

  lemma {:induction false} StagesFollowed(n: nat, p: bool, x: nat, y: nat, e: nat, d: nat, v: int,
                                          xs: seq<Action<Op, int>>)
    requires v != 0 && Exec(Fifo, NewObject([], n), xs).Some? && Visible(xs) <= Full(p, x, y, e, d, v)
    ensures var m := |Visible(xs)| - (if p then 2 else 0);
      m <= 4 && Stage(Exec(Fifo, NewObject([], n), xs).value, m, d, v)
  {
    if xs != [] {
      var last := |xs| - 1;
      var a, m := Exec(Fifo, NewObject([], n), xs[..last]).value, |Visible(xs[..last])| - (if p then 2 else 0);
      StagesFollowed(n, p, x, y, e, d, v, xs[..last]);
      if xs[last].Lin? {
        StageLin(a, m, d, v, xs[last].t);
      } else {
        assert xs[last] == Full(p, x, y, e, d, v)[|Visible(xs[..last])|] == Full(true, x, y, e, d, v)[m + 2];
        StageNext(a, m, x, y, e, d, v);
      }
    }
  }

  /** No queue answers so: when the removal is called, the addition that has returned is in the queue. */
  lemma NotAQueue(n: nat, p: bool, x: nat, y: nat, e: nat, d: nat, v: int)
    requires v != 0
    ensures !Linearizable(Fifo, [], n, Full(p, x, y, e, d, v))
  {
    var h := Full(p, x, y, e, d, v);
    if Linearizable(Fifo, [], n, h) {
      var xs :| Exec(Fifo, NewObject([], n), xs).Some? && Visible(xs) == h;
      StagesFollowed(n, p, x, y, e, d, v, xs);
      assert false;
    }
  }

  // ---------------------------------------------------------------- exactly which clients

  /** Two threads or more, that add and remove. */
  lemma AddsAndRemovesFail(n: nat, ops: set<Op>, v: int) returns (sched: seq<Choice>)
    requires n >= 2 && Add(v) in ops && Remove in ops && Good(v)
    ensures Within(sched, ops) && !Linearizable(Fifo, [], n, Run(QUEUE, n, sched).history)
  {
    QueueWithholds(v);
    var one, two := Pass([[]], [v]), Pass([[]], [v, v]);
    var s;
    if n == 2 {
      s := DuoRun(QUEUE, ops, v, one, two);
      assert s.history == Full(false, 0, 1, 0, 0, v);
      NotAQueue(n, false, 0, 1, 0, 0, v);
    } else {
      s := TrioRun(QUEUE, n, ops, v, one, two);
      NotAQueue(n, true, 1, 2, 2, 0, v);
    }
    sched :| Run(QUEUE, n, sched) == s && Within(sched, ops);
  }

  /** The exact condition: all runs of `n` threads that call only `ops` are runs of a queue if and only if there is one
      thread, or nothing is added, or nothing is removed. */
  lemma ExactClients(n: nat, ops: set<Op>)
    requires forall op :: op in ops ==> GoodOp(op)
    ensures (forall sched :: Within(sched, ops) ==> Linearizable(Fifo, [], n, Run(QUEUE, n, sched).history))
      <==> n <= 1 || NoAdds(ops) || Remove !in ops
  {
    if Calm(n, ops) {
      forall sched | Within(sched, ops) ensures Linearizable(Fifo, [], n, Run(QUEUE, n, sched).history) {
        CalmRun(n, ops, sched);
        QueueLinearizable(n, sched);
      }
    } else {
      var op :| op in ops && op.Add?;
      var sched := AddsAndRemovesFail(n, ops, op.v);
    }
  }
}
