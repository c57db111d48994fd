/**
 The flat-combining FIFO queue of All_Summer2017/testProject/data_structures/FCQueue.h: flat combining over the chunked
 queue. The values added in a pass go into a chunk of their own, which joins the queue when the pass is over.
 */
module FlatCombiningQueue {
  import opened Linearizability
  import opened Options
  import opened Slots
  import opened FlatCombining
  import opened FlatCombiningProofs
  import CQ = ChunkedQueue
  import Runs = FlatCombiningRuns

  /** The values left in each chunk of the queue, oldest chunk first, and those of the chunk being filled. */
  datatype Pass = Pass(parts: seq<seq<int>>, added: seq<int>)

  /** Lines 113-166. At a chunk boundary the combiner moves to the next chunk and looks at the slot again. */
  function QueueServe(o: Pass, x: int): (Pass, Option<int>) {
    if x > NULL_VALUE then (o.(added := o.added + [x]), Some(0))
    else if |o.parts| > 0 && o.parts[0] != [] then
      (o.(parts := o.parts[0 := o.parts[0][1..]]), Some(o.parts[0][0]))
    else if |o.parts| > 1 then (o.(parts := o.parts[1..]), None)
    else (o, Some(0))
  }

  /** Lines 175-191. */
  function QueueLeave(o: Pass): Pass {
    var left := if |o.parts| > 1 && o.parts[0] == [] then o.parts[1..] else o.parts;
    Pass(if o.added == [] then left else left + [o.added], [])
  }

  /** At most two scans to a pass, line 201. */
  const QUEUE: Service<Pass> := Service(Pass([[]], []), QueueServe, QueueLeave, n => if n < 2 then n else 2)

  /** The sequential queue: 0 answers an addition, and the removal from an empty queue. */
  function Fifo(q: seq<int>, op: Op): (seq<int>, int) {
    match op
    case Add(v) => (q + [v], 0)
    case Remove => if q == [] then (q, 0) else (q[1..], q[0])
  }

  // ---------------------------------------------------------------- a pass

  /** A request, served at the end of however many chunk boundaries. */
  function ServeOut(o: Pass, x: int): (Pass, int)
    decreases |o.parts|
  {
    var (o', a) := QueueServe(o, x);
    if a.Some? then (o', a.value) else ServeOut(o', x)
  }

  /** The words that a pass leaves for the words it reads. */
  function ServeAll(o: Pass, xs: seq<int>): (Pass, seq<int>) {
    if xs == [] then (o, []) else
    var (o', words) := ServeAll(o, xs[..|xs| - 1]);
    var x := xs[|xs| - 1];
    if !IsRequest(x) then (o', words + [x]) else
    var (o'', a) := ServeOut(o', x);
    (o'', words + [-a])
  }

  lemma {:induction false} ServeOutIs(o: Pass, x: int)
    requires |o.parts| > 0
    ensures var (o', a) := ServeOut(o, x); var q := CQ.Joined(o.parts);
      && |o'.parts| > 0
      && (if x > NULL_VALUE then CQ.Joined(o'.parts) == q && o'.added == o.added + [x] && a == 0
          else o'.added == o.added && CQ.Joined(o'.parts) == CQ.Dropped(q, 1) && a == if q == [] then 0 else q[0])
    decreases |o.parts|
  {
    if x > NULL_VALUE {
    } else if o.parts[0] != [] {
      CQ.JoinedPop(o.parts);
    } else if |o.parts| > 1 {
      assert CQ.Joined(o.parts) == CQ.Joined(o.parts[1..]);
      ServeOutIs(o.(parts := o.parts[1..]), x);
    } else {
      assert CQ.Joined(o.parts[1..]) == [];
    }
  }

  lemma {:induction false} ServeAllIs(o: Pass, xs: seq<int>)
    requires |o.parts| > 0 && o.added == []
    ensures var (o', words) := ServeAll(o, xs); var q := CQ.Joined(o.parts);
      && |o'.parts| > 0 && CQ.Answers(q, xs, words)
      && CQ.Joined(o'.parts) == CQ.Dropped(q, Deqs(xs)) && o'.added == Enqs(xs)
  {
    if xs != [] {
      var n, q := |xs| - 1, CQ.Joined(o.parts);
      var (o', words) := ServeAll(o, xs[..n]);
      ServeAllIs(o, xs[..n]);
      ServeOutIs(o', xs[n]);
      assert xs == xs[..n] + [xs[n]];
      CQ.AnswersSnoc(q, xs[..n], words, xs[n], ServeAll(o, xs).1[n]);
    }
  }

  /** Closing a pass keeps the values, in order. */
  lemma LeaveJoins(o: Pass)
    requires |o.parts| > 0
    ensures |QueueLeave(o).parts| > 0 && CQ.Joined(QueueLeave(o).parts) == CQ.Joined(o.parts) + o.added
  {
    var left := if |o.parts| > 1 && o.parts[0] == [] then o.parts[1..] else o.parts;
    assert CQ.Joined(left) == CQ.Joined(o.parts);
    CQ.JoinedSnoc(left, o.added);
  }

  /** A pass leaves the words, and the queue, that `FCQueue.FlatCombining` is proved to leave. */
  lemma PassAgrees(o: Pass, xs: seq<int>)
    requires |o.parts| > 0 && o.added == []
    ensures var (o', words) := ServeAll(o, xs); var q := CQ.Joined(o.parts);
      CQ.Answers(q, xs, words) && CQ.Joined(QueueLeave(o').parts) == CQ.Dropped(q, Deqs(xs)) + Enqs(xs)
  {
    ServeAllIs(o, xs);
    LeaveJoins(ServeAll(o, xs).0);
  }

  // ---------------------------------------------------------------- runs

  /** What the queue holds, from the outside: also what the pass under way has added. */
  ghost function Value(o: Pass): seq<int> { CQ.Joined(o.parts) + o.added }

  /** The step looks for a value to remove when only the pass under way has any. */
  ghost predicate Dry(s: State<Pass>, ch: Choice) {
    Asked(s, ch) == Some(DEQ_VALUE) && CQ.Joined(s.obj.parts) == [] && s.obj.added != []
  }

  /** No removal is served dry. */
  ghost predicate NeverDry(n: nat, sched: seq<Choice>) {
    sched == [] || (var before := sched[..|sched| - 1];
      NeverDry(n, before) && !Dry(Run(QUEUE, n, before), sched[|sched| - 1]))
  }

  ghost predicate AllGood(q: seq<int>) { forall i :: 0 <= i < |q| ==> Good(q[i]) }

  ghost predicate PassOk(o: Pass) { |o.parts| > 0 && AllGood(Value(o)) }

  /** Serving a request is the sequential operation, unless it is dry. */
  lemma ServeIsFifo(o: Pass, x: int)
    requires PassOk(o) && IsRequest(x) && GoodOp(OpAt(x))
    requires x == DEQ_VALUE && CQ.Joined(o.parts) == [] ==> o.added == []
    ensures var (o', a) := QueueServe(o, x);
      && PassOk(o')
      && (if a.None? then Value(o') == Value(o)
          else Fifo(Value(o), OpAt(x)) == (Value(o'), a.value) && Served(OpAt(x), -a.value))
  {
    if x > NULL_VALUE {
      assert CQ.Joined(o.parts) + (o.added + [x]) == Value(o) + [x];
    } else if o.parts[0] != [] {
      CQ.JoinedPop(o.parts);
      var q' := CQ.Joined(o.parts[0 := o.parts[0][1..]]);
      assert Value(o)[0] == o.parts[0][0] && Value(o)[1..] == q' + o.added;
    } else if |o.parts| > 1 {
      assert CQ.Joined(o.parts) == CQ.Joined(o.parts[1..]);
    } else {
      assert CQ.Joined(o.parts[1..]) == [];
    }
  }

  lemma QueueStep(s: State<Pass>, c: seq<nat>, ch: Choice)
    requires Inv(s, c) && PassOk(s.obj) && !Dry(s, ch)
    ensures var s' := Step(QUEUE, s, ch); PassOk(s'.obj) && ServesAs(QUEUE, Fifo, Value(s.obj), Value(s'.obj), s, ch)
  {
    if Asked(s, ch).Some? {
      var pc := s.threads[ch.t].pc;
      assert ThreadOk(s.slots, c, ch.t + 1, s.threads[ch.t]);
      RequestOwned(s, c, pc.curr);
      ServeIsFifo(s.obj, pc.value);
    } else {
      LeaveJoins(s.obj);
      assert CQ.Joined(s.obj.parts) + s.obj.added + [] == CQ.Joined(s.obj.parts) + s.obj.added;
    }
  }

  lemma {:induction false} RunMatch(n: nat, sched: seq<Choice>) returns (c: seq<nat>, xs: seq<Action<Op, int>>)
    requires GoodCalls(sched) && NeverDry(n, sched)
    ensures var s := Run(QUEUE, n, sched);
      && Inv(s, c) && PassOk(s.obj) && |s.threads| == n
      && Exec(Fifo, NewObject([], n), xs) == Some(Abs(Value(s.obj), s)) && Visible(xs) == s.history
  {
    if sched == [] {
      assert CQ.Joined([[]][1..]) == [];
      assert Value(QUEUE.first) == [];
      InitInv(QUEUE, Value(QUEUE.first), n);
      c, xs := [0], [];
    } else {
      var s, ch := Run(QUEUE, n, sched[..|sched| - 1]), sched[|sched| - 1];
      var ys;
      c, xs := RunMatch(n, sched[..|sched| - 1]);
      QueueStep(s, c, ch);
      c, ys := StepMatch(QUEUE, Fifo, Value(s.obj), Value(Step(QUEUE, s, ch).obj), s, c, ch);
      ExecConcat(Fifo, NewObject([], n), xs, ys);
      xs := xs + ys;
    }
  }

  /** Whatever the schedule: if no removal is served dry, the calls and returns are those of an atomic queue. */
  lemma QueueLinearizable(n: nat, sched: seq<Choice>)
    requires GoodCalls(sched) && NeverDry(n, sched)
    ensures Linearizable(Fifo, [], n, Run(QUEUE, n, sched).history)
  {
    var c, xs := RunMatch(n, sched);
  }

  // ---------------------------------------------------------------- clients whose removals are never dry

  ghost predicate Called(s: State<Pass>, ops: set<Op>) {
    forall t :: 0 <= t < |s.threads| && s.threads[t].In? ==> s.threads[t].op in ops
  }

  predicate NoAdds(ops: set<Op>) { forall op :: op in ops ==> op.Remove? }

  /** One thread, or no additions, or no removals. */
  ghost predicate Calm(n: nat, ops: set<Op>) { n <= 1 || NoAdds(ops) || Remove !in ops }

  /** Whatever a lone thread's pass has added, it has added for the operation under way. */
  ghost predicate AddedNow(s: State<Pass>) {
    s.obj.added != [] ==> |s.threads| == 1 && s.threads[0].In? && s.threads[0].op.Add? && Combining(s.threads[0])
  }

  ghost predicate CalmSo(s: State<Pass>, n: nat, ops: set<Op>) {
    && Called(s, ops) && (n <= 1 ==> AddedNow(s)) && (NoAdds(ops) ==> s.obj.added == [])
  }

  /** The request that is served comes from a thread inside it. */
  lemma AskedFor(s: State<Pass>, c: seq<nat>, ch: Choice) returns (t: nat)
    requires Inv(s, c) && Asked(s, ch).Some?
    ensures t < |s.threads| && s.threads[t].In? && RequestOf(s.threads[t].op) == Asked(s, ch).value
    ensures GoodOp(s.threads[t].op) && (|s.threads| == 1 ==> t == ch.t)
  {
    var pc := s.threads[ch.t].pc;
    assert ThreadOk(s.slots, c, ch.t + 1, s.threads[ch.t]);
    RequestOwned(s, c, pc.curr);
    t := pc.curr - 1;
  }

  lemma CalmNotDry(s: State<Pass>, c: seq<nat>, ch: Choice, n: nat, ops: set<Op>)
    requires Inv(s, c) && CalmSo(s, n, ops) && Calm(n, ops)
    ensures !Dry(s, ch)
  {
    if Asked(s, ch) == Some(DEQ_VALUE) {
      var t := AskedFor(s, c, ch);
      assert s.threads[t].op == Remove;
    }
  }

  /** A thread stays in its operation until it returns; one that starts is inside the operation it was asked for. */
  ghost predicate Stays<S>(s: State<S>, s': State<S>, ch: Choice, t: nat)
    requires t < |s.threads| == |s'.threads|
  {
    s'.threads[t].In? ==> s'.threads[t].op == if s.threads[t].In? then s.threads[t].op else ch.op
  }

  lemma JoiningStays<S>(k: Service<S>, s: State<S>, ch: Choice, t: nat)
    requires t < |s.threads| && ch.t < |s.threads| && Joining(s.threads[ch.t])
    ensures Stays(s, Step(k, s, ch), ch, t)
  {
  }

  lemma CombiningStays<S>(k: Service<S>, s: State<S>, ch: Choice, t: nat)
    requires t < |s.threads| && ch.t < |s.threads| && Combining(s.threads[ch.t])
    ensures Stays(s, Step(k, s, ch), ch, t)
  {
  }

  lemma WaitingStays<S>(k: Service<S>, s: State<S>, ch: Choice, t: nat)
    requires t < |s.threads| && ch.t < |s.threads| && !Joining(s.threads[ch.t]) && !Combining(s.threads[ch.t])
    ensures Stays(s, Step(k, s, ch), ch, t)
  {
  }

  lemma CalledStep(s: State<Pass>, ch: Choice, ops: set<Op>)
    requires Called(s, ops) && ch.op in ops
    ensures Called(Step(QUEUE, s, ch), ops)
  {
    var s' := Step(QUEUE, s, ch);
    forall t | 0 <= t < |s'.threads| && s'.threads[t].In? ensures s'.threads[t].op in ops {
      if ch.t < |s.threads| {
        if Joining(s.threads[ch.t]) { JoiningStays(QUEUE, s, ch, t); }
        else if Combining(s.threads[ch.t]) { CombiningStays(QUEUE, s, ch, t); }
        else { WaitingStays(QUEUE, s, ch, t); }
      }
    }
  }

  /** What a step can add to the pass. */
  lemma AddedStep(s: State<Pass>, ch: Choice)
    ensures var s' := Step(QUEUE, s, ch);
      || s'.obj.added == s.obj.added
      || s'.obj.added == []
      || (Asked(s, ch).Some? && Asked(s, ch).value > NULL_VALUE)
  {
  }

  lemma CalmStep(s: State<Pass>, c: seq<nat>, ch: Choice, n: nat, ops: set<Op>)
    requires Inv(s, c) && CalmSo(s, n, ops) && |s.threads| == n && ch.op in ops
    ensures CalmSo(Step(QUEUE, s, ch), n, ops)
  {
    CalledStep(s, ch, ops);
    AddedStep(s, ch);
    if Asked(s, ch).Some? {
      var t := AskedFor(s, c, ch);
      assert s.threads[t].op in ops;
    }
  }

  lemma {:induction false} CalmRun(n: nat, ops: set<Op>, sched: seq<Choice>)
    requires Calm(n, ops) && GoodCalls(sched) && Runs.Within(sched, ops)
    ensures NeverDry(n, sched) && CalmSo(Run(QUEUE, n, sched), n, ops)
  {
    if sched != [] {
      var s, ch := Run(QUEUE, n, sched[..|sched| - 1]), sched[|sched| - 1];
      CalmRun(n, ops, sched[..|sched| - 1]);
      var c, xs := RunMatch(n, sched[..|sched| - 1]);
      CalmNotDry(s, c, ch, n, ops);
      CalmStep(s, c, ch, n, ops);
    }
  }
}
