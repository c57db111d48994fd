/**
 Progress of the elimination stack: a thread that runs by itself returns within a number of steps that only depends on
 the size of the elimination array, a call that runs so is answered by what the stack holds, and the number of steps of
 any run is bounded by the number of calls in it.
 */
module EliminationStackProgress {
  import opened Linearizability
  import opened Options
  import opened EliminationStack
  import opened EliminationStackProofs
  import opened Potential

  /** `k` steps of thread `t`, which is inside an operation, while the others stand still. */
  function Alone(s: State, t: nat, k: nat): State
    decreases k
  {
    if k == 0 then s else Alone(Step(s, Choice(t, Pop)), t, k - 1)
  }

  // ---------------------------------------------------------------- how many steps are left

  function Gap(s: State, i: nat): nat { if i < |s.slots| then |s.slots| - i else 0 }

  /** The steps until the return, at most. A top that has changed sends a thread through the elimination array, and
      after that to the top again. */
  function Left(s: State, pc: PC): nat {
    var around := 2 * |s.slots|;
    match pc
    case NewNode => 5
    case ReadTop(_) => 4
    case SetNext(_, curr) => if curr == s.top then 3 else 11 + around
    case CasTop(_, curr) => if curr == s.top then 2 else 10 + around
    case ReadHint(_) => 9 + around
    case ReadSlot(_, i, _) => 8 + 2 * Gap(s, i)
    case PutSlot(_, i, _) => 7 + 2 * Gap(s, i)
    case SetHint(_, _) => 6
    case TakeBack(_, _) => 5
    case QReadTop => 5
    case QReadNext(top) => if s.top == Some(top) then 4 else 10 + around
    case QCasTop(top, _) => if s.top == Some(top) then 3 else 9 + around
    case QReadHint => 8 + around
    case QReadSlot(i, _) => 7 + 2 * Gap(s, i)
    case QGrab(i, _, _) => 6 + 2 * Gap(s, i)
    case QReadValue(_) => 2
    case Return(_) => 1
  }

  /** More than this are never left. */
  function Bound(size: nat): nat { 2 * size + 11 }

  lemma LeftBound(s: State, pc: PC)
    ensures 0 < Left(s, pc) <= Bound(|s.slots|)
  {
  }

  /** One step of a thread that is inside: it returns, or is nearer to returning. */
  ghost predicate Nearer(s: State, s': State, t: nat)
    requires t < |s.threads| == |s'.threads| && s.threads[t].In?
  {
    && |s'.slots| == |s.slots|
    && if s.threads[t].pc.Return? then s'.threads == s.threads[t := Out]
       else s'.threads == s.threads[t := s'.threads[t]] && s'.threads[t].In? && s'.history == s.history
            && Left(s', s'.threads[t].pc) < Left(s, s.threads[t].pc)
  }

  lemma PushNearer(s: State, c: seq<Ptr>, ch: Choice)
    requires Inv(s, c) && ch.t < |s.threads| && s.threads[ch.t].In?
    requires var pc := s.threads[ch.t].pc; pc.NewNode? || pc.ReadTop? || pc.SetNext? || pc.CasTop? || pc.ReadHint?
    ensures Nearer(s, Step(s, ch), ch.t)
  {
    assert ThreadOk(s.nodes, |s.slots|, Claims(s.threads), s.threads[ch.t]);
  }

  lemma OfferNearer(s: State, c: seq<Ptr>, ch: Choice)
    requires Inv(s, c) && ch.t < |s.threads| && s.threads[ch.t].In?
    requires var pc := s.threads[ch.t].pc; pc.ReadSlot? || pc.PutSlot? || pc.SetHint? || pc.TakeBack? || pc.Return?
    ensures Nearer(s, Step(s, ch), ch.t)
  {
    assert ThreadOk(s.nodes, |s.slots|, Claims(s.threads), s.threads[ch.t]);
  }

  lemma PopNearer(s: State, c: seq<Ptr>, ch: Choice)
    requires Inv(s, c) && ch.t < |s.threads| && s.threads[ch.t].In?
    requires var pc := s.threads[ch.t].pc; pc.QReadTop? || pc.QReadNext? || pc.QCasTop? || pc.QReadHint?
    ensures Nearer(s, Step(s, ch), ch.t)
  {
    assert ThreadOk(s.nodes, |s.slots|, Claims(s.threads), s.threads[ch.t]);
  }

  lemma GrabNearer(s: State, c: seq<Ptr>, ch: Choice)
    requires Inv(s, c) && ch.t < |s.threads| && s.threads[ch.t].In?
    requires var pc := s.threads[ch.t].pc; pc.QReadSlot? || pc.QGrab? || pc.QReadValue?
    ensures Nearer(s, Step(s, ch), ch.t)
  {
    assert ThreadOk(s.nodes, |s.slots|, Claims(s.threads), s.threads[ch.t]);
  }

  lemma StepNearer(s: State, c: seq<Ptr>, ch: Choice)
    requires Inv(s, c) && ch.t < |s.threads| && s.threads[ch.t].In?
    ensures Nearer(s, Step(s, ch), ch.t)
  {
    var pc := s.threads[ch.t].pc;
    if pc.NewNode? || pc.ReadTop? || pc.SetNext? || pc.CasTop? || pc.ReadHint? {
      PushNearer(s, c, ch);
    } else if pc.ReadSlot? || pc.PutSlot? || pc.SetHint? || pc.TakeBack? || pc.Return? {
      OfferNearer(s, c, ch);
    } else if pc.QReadTop? || pc.QReadNext? || pc.QCasTop? || pc.QReadHint? {
      PopNearer(s, c, ch);
    } else {
      GrabNearer(s, c, ch);
    }
  }

  // ---------------------------------------------------------------- every thread can return by itself

  /** Thread `t` has returned `r` within `bound` steps of its own, and nobody else has moved. */
  ghost predicate ReturnsWithin(s: State, t: nat, m: nat, bound: nat, r: Res)
    requires t < |s.threads|
  {
    && 0 < m <= bound
    && Alone(s, t, m).threads == s.threads[t := Out] && Alone(s, t, m).history == s.history + [Ret(t, r)]
  }

  lemma ReturnsMore(s: State, s': State, t: nat, m: nat, bound: nat, r: Res)
    requires t < |s.threads| == |s'.threads| && s' == Step(s, Choice(t, Pop)) && ReturnsWithin(s', t, m, bound, r)
    requires s'.threads == s.threads[t := s'.threads[t]] && s'.history == s.history
    ensures ReturnsWithin(s, t, m + 1, bound + 1, r)
  {
    assert s'.threads[t := Out] == s.threads[t := Out];
  }

  lemma {:induction false} Returns(s: State, c: seq<Ptr>, t: nat) returns (m: nat, r: Res)
    requires Inv(s, c) && t < |s.threads| && s.threads[t].In?
    ensures ReturnsWithin(s, t, m, Left(s, s.threads[t].pc), r)
    decreases Left(s, s.threads[t].pc)
  {
    var ch := Choice(t, Pop);
    var s', pc := Step(s, ch), s.threads[t].pc;
    StepNearer(s, c, ch);
    if pc.Return? {
      m, r := 1, pc.res;
      assert Alone(s, t, 1) == Alone(s', t, 0);
    } else {
      var xs := StepMatch(s, c, ch);
      m, r := Returns(s', ChainAfter(s, c, ch), t);
      ReturnsMore(s, s', t, m, Left(s', s'.threads[t].pc), r);
      m := m + 1;
    }
  }

  /** In every run, wherever the other threads are and whatever is in the elimination array, a thread inside `add` or
      `remove` returns within 2 * size + 11 steps of its own if it is left to run by itself. */
  lemma ObstructionFree(n: nat, size: nat, sched: seq<Choice>, t: nat) returns (m: nat, r: Res)
    requires t < |Run(n, size, sched).threads| && Run(n, size, sched).threads[t].In?
    ensures ReturnsWithin(Run(n, size, sched), t, m, 2 * size + 11, r)
  {
    var s := Run(n, size, sched);
    var c, xs := RunMatch(n, size, sched);
    RunSize(n, size, sched);
    LeftBound(s, s.threads[t].pc);
    m, r := Returns(s, c, t);
  }

  lemma StepSize(s: State, ch: Choice)
    ensures |Step(s, ch).slots| == |s.slots|
  {
  }

  lemma {:induction false} RunSize(n: nat, size: nat, sched: seq<Choice>)
    ensures |Run(n, size, sched).slots| == size && |Run(n, size, sched).threads| == n
  {
    if sched != [] {
      RunSize(n, size, sched[..|sched| - 1]);
      StepSize(Run(n, size, sched[..|sched| - 1]), sched[|sched| - 1]);
    }
  }

  // ---------------------------------------------------------------- what a call that runs by itself answers

  /** The values from `_top` down. */
  ghost predicate Stack(s: State, st: seq<int>) {
    exists c :: Chain(s.nodes, s.top, c) && Values(s.nodes, c) == st
  }

  /** What a call on the stack `st` is to answer, and the stack it leaves. */
  ghost predicate Outcome(st: seq<int>, op: Op, r: Res, st': seq<int>) {
    match op
    case Push(v) => r == Added && st' == [v] + st
    case Pop => if st == [] then r == Took(0) && st' == [] else r == Took(st[0]) && st' == st[1..]
  }

  /** A call that began on the stack `st` and has run by itself: the top it has read is the top. */
  ghost predicate OnCourse(s: State, now: seq<int>, st: seq<int>, op: Op, pc: PC) {
    match pc
    case NewNode => now == st
    case ReadTop(_) => now == st
    case SetNext(_, curr) => now == st && curr == s.top
    case CasTop(_, curr) => now == st && curr == s.top
    case QReadTop => now == st
    case QReadNext(top) => now == st && s.top == Some(top)
    case QCasTop(top, _) => now == st && s.top == Some(top)
    case QReadValue(nd) => nd < |s.nodes| && Outcome(st, op, Took(s.nodes[nd].value), now)
    case Return(r) => Outcome(st, op, r, now)
    case _ => false
  }

  ghost predicate Going(s: State, c: seq<Ptr>, t: nat, st: seq<int>, op: Op) {
    && Inv(s, c) && t < |s.threads| && s.threads[t].In? && s.threads[t].op == op
    && OnCourse(s, Values(s.nodes, c), st, op, s.threads[t].pc)
  }

  /** Allocating and linking on a node of one's own leaves the stack alone. */
  lemma PushGoing(s: State, c: seq<Ptr>, t: nat, st: seq<int>, op: Op)
    requires Going(s, c, t, st, op)
    requires var pc := s.threads[t].pc; pc.NewNode? || pc.ReadTop? || pc.SetNext?
    ensures Going(Step(s, Choice(t, Pop)), c, t, st, op)
  {
    var ch := Choice(t, Pop);
    var s' := Step(s, ch);
    assert ThreadOk(s.nodes, |s.slots|, Claims(s.threads), s.threads[t]);
    var xs := StepMatch(s, c, ch);
    assert Values(s'.nodes, c) == Values(s.nodes, c);
  }

  lemma TopGoing(s: State, c: seq<Ptr>, t: nat, st: seq<int>, op: Op)
    requires Going(s, c, t, st, op) && s.threads[t].pc.CasTop?
    ensures Going(Step(s, Choice(t, Pop)), ChainAfter(s, c, Choice(t, Pop)), t, st, op)
  {
    var ch, nd := Choice(t, Pop), s.threads[t].pc.nd;
    var s' := Step(s, ch);
    assert ThreadOk(s.nodes, |s.slots|, Claims(s.threads), s.threads[t]);
    var xs := StepMatch(s, c, ch);
    assert Values(s'.nodes, [nd] + c) == [s.nodes[nd].value] + Values(s.nodes, c);
  }

  /** Nothing on top: the stack is empty, and the answer is 0. */
  lemma PopGoing(s: State, c: seq<Ptr>, t: nat, st: seq<int>, op: Op)
    requires Going(s, c, t, st, op)
    requires var pc := s.threads[t].pc; pc.QReadTop? || pc.QReadNext? || pc.QReadValue?
    ensures Going(Step(s, Choice(t, Pop)), c, t, st, op)
  {
    var ch := Choice(t, Pop);
    assert ThreadOk(s.nodes, |s.slots|, Claims(s.threads), s.threads[t]);
    var xs := StepMatch(s, c, ch);
    assert Values(Step(s, ch).nodes, c) == Values(s.nodes, c);
  }

  lemma TakeGoing(s: State, c: seq<Ptr>, t: nat, st: seq<int>, op: Op)
    requires Going(s, c, t, st, op) && s.threads[t].pc.QCasTop?
    ensures Going(Step(s, Choice(t, Pop)), ChainAfter(s, c, Choice(t, Pop)), t, st, op)
  {
    var ch := Choice(t, Pop);
    assert ThreadOk(s.nodes, |s.slots|, Claims(s.threads), s.threads[t]);
    var xs := StepMatch(s, c, ch);
    assert Values(s.nodes, c[1..]) == Values(s.nodes, c)[1..];
  }

  lemma GoesOn(s: State, c: seq<Ptr>, t: nat, st: seq<int>, op: Op)
    requires Going(s, c, t, st, op) && !s.threads[t].pc.Return?
    ensures Going(Step(s, Choice(t, Pop)), ChainAfter(s, c, Choice(t, Pop)), t, st, op)
  {
    var pc := s.threads[t].pc;
    if pc.NewNode? || pc.ReadTop? || pc.SetNext? {
      PushGoing(s, c, t, st, op);
    } else if pc.CasTop? {
      TopGoing(s, c, t, st, op);
    } else if pc.QCasTop? {
      TakeGoing(s, c, t, st, op);
    } else {
      PopGoing(s, c, t, st, op);
    }
  }

  lemma {:induction false} Answers(s: State, c: seq<Ptr>, t: nat, st: seq<int>, op: Op)
    returns (m: nat, r: Res, st': seq<int>)
    requires Going(s, c, t, st, op)
    ensures ReturnsWithin(s, t, m, Left(s, s.threads[t].pc), r) && Outcome(st, op, r, st')
    ensures Stack(Alone(s, t, m), st')
    decreases Left(s, s.threads[t].pc)
  {
    var ch := Choice(t, Pop);
    var s', pc := Step(s, ch), s.threads[t].pc;
    StepNearer(s, c, ch);
    if pc.Return? {
      m, r, st' := 1, pc.res, Values(s.nodes, c);
      assert Alone(s, t, 1) == Alone(s', t, 0);
      assert Chain(s'.nodes, s'.top, c);
    } else {
      GoesOn(s, c, t, st, op);
      m, r, st' := Answers(s', ChainAfter(s, c, ch), t, st, op);
      ReturnsMore(s, s', t, m, Left(s', s'.threads[t].pc), r);
      m := m + 1;
    }
  }

  /** In every run, wherever the other threads are, a call that runs by itself returns within 5 steps: `add` puts its
      value on top; `remove` answers the top value, which leaves the stack, or 0 if there is none. */
  lemma SoloCall(n: nat, size: nat, sched: seq<Choice>, t: nat, op: Op, st: seq<int>)
    returns (m: nat, r: Res, st': seq<int>)
    requires var s := Run(n, size, sched); t < |s.threads| && s.threads[t].Out? && Stack(s, st)
    ensures ReturnsWithin(Step(Run(n, size, sched), Choice(t, op)), t, m, 5, r) && Outcome(st, op, r, st')
    ensures Stack(Alone(Step(Run(n, size, sched), Choice(t, op)), t, m), st')
  {
    var s := Run(n, size, sched);
    var c, xs := RunMatch(n, size, sched);
    var d :| Chain(s.nodes, s.top, d) && Values(s.nodes, d) == st;
    ChainUnique(s.nodes, s.top, c, d);
    var ys := StepMatch(s, c, Choice(t, op));
    m, r, st' := Answers(Step(s, Choice(t, op)), c, t, st, op);
  }

  // ---------------------------------------------------------------- lock-freedom

  /** What the change of the top that an operation may yet make can cost `n` threads. */
  function Credit(th: Thread, n: nat, size: nat): nat {
    if th.Out? || th.pc.Return? || th.pc.QReadValue? then 0 else Bound(size) * n
  }

  function Cost(s: State, th: Thread, n: nat): nat {
    if th.Out? then 0 else Left(s, th.pc) + Credit(th, n, |s.slots|)
  }

  function Costs(s: State, threads: seq<Thread>, n: nat): (r: seq<nat>)
    ensures |r| == |threads| && forall u :: 0 <= u < |threads| ==> r[u] == Cost(s, threads[u], n)
  {
    seq(|threads|, u requires 0 <= u < |threads| => Cost(s, threads[u], n))
  }

  /** The steps that can be taken before somebody calls again. */
  function Work(s: State): nat { Sum(Costs(s, s.threads, |s.threads|)) }

  lemma CostsUpdate(s: State, threads: seq<Thread>, n: nat, t: nat, th: Thread)
    requires t < |threads|
    ensures Sum(Costs(s, threads[t := th], n)) + Cost(s, threads[t], n) == Sum(Costs(s, threads, n)) + Cost(s, th, n)
  {
    SumUpdate(Costs(s, threads, n), t, Cost(s, th, n));
    assert Costs(s, threads[t := th], n) == Costs(s, threads, n)[t := Cost(s, th, n)];
  }

  /** While the top stays, a step costs only the thread that takes it. */
  lemma QuietWork(s: State, s': State, t: nat)
    requires t < |s.threads| == |s'.threads| && s'.threads == s.threads[t := s'.threads[t]]
    requires s'.top == s.top && |s'.slots| == |s.slots|
    ensures Work(s') + Cost(s, s.threads[t], |s.threads|) == Work(s) + Cost(s', s'.threads[t], |s.threads|)
  {
    var n := |s.threads|;
    assert Costs(s', s.threads, n) == Costs(s, s.threads, n);
    CostsUpdate(s', s.threads, n, t, s'.threads[t]);
  }

  /** A step that changes the top makes everybody start over at worst. */
  lemma ChangeWork(s: State, s': State, t: nat)
    requires t < |s.threads| == |s'.threads| && s'.threads == s.threads[t := s'.threads[t]] && |s'.slots| == |s.slots|
    ensures var n := |s.threads|;
      Work(s') + Cost(s, s.threads[t], n) <= Work(s) + Bound(|s.slots|) * n + Cost(s', s'.threads[t], n)
  {
    var n, others, b := |s.threads|, s.threads[t := Out], Bound(|s.slots|);
    CostsUpdate(s, s.threads, n, t, Out);
    forall u | 0 <= u < n ensures Cost(s', others[u], n) <= Cost(s, others[u], n) + b {
      if others[u].In? { LeftBound(s', others[u].pc); }
    }
    SumRise(Costs(s, others, n), Costs(s', others, n), b);
    CostsUpdate(s', others, n, t, s'.threads[t]);
    assert others[t := s'.threads[t]] == s'.threads;
  }

  predicate ChangesTop(s: State, ch: Choice)
    requires ch.t < |s.threads| && s.threads[ch.t].In?
  {
    var pc := s.threads[ch.t].pc;
    (pc.CasTop? && s.top == pc.curr) || (pc.QCasTop? && s.top == Some(pc.top))
  }

  lemma TopStays(s: State, ch: Choice)
    requires ch.t < |s.threads| && s.threads[ch.t].In? && !ChangesTop(s, ch)
    ensures Step(s, ch).top == s.top
    ensures Credit(Step(s, ch).threads[ch.t], |s.threads|, |s.slots|) <= Credit(s.threads[ch.t], |s.threads|, |s.slots|)
  {
  }

  /** Every step of an operation lessens the work. */
  lemma StepWork(s: State, c: seq<Ptr>, ch: Choice)
    requires Inv(s, c) && ch.t < |s.threads| && s.threads[ch.t].In?
    ensures Work(Step(s, ch)) < Work(s)
  {
    StepNearer(s, c, ch);
    if ChangesTop(s, ch) {
      ChangeWork(s, Step(s, ch), ch.t);
    } else {
      TopStays(s, ch);
      QuietWork(s, Step(s, ch), ch.t);
    }
  }

  /** A call brings so much work. */
  function PerCall(n: nat, size: nat): nat { Bound(size) + Bound(size) * n }

  lemma CallWork(s: State, ch: Choice)
    requires ch.t < |s.threads| && s.threads[ch.t].Out?
    ensures Work(Step(s, ch)) <= Work(s) + PerCall(|s.threads|, |s.slots|)
  {
    var s' := Step(s, ch);
    QuietWork(s, s', ch.t);
    LeftBound(s', s'.threads[ch.t].pc);
  }

  lemma CallsStep(s: State, ch: Choice)
    requires ch.t < |s.threads|
    ensures CallsIn(Step(s, ch).history) == CallsIn(s.history) + if s.threads[ch.t].Out? then 1 else 0
  {
    var th := s.threads[ch.t];
    if th.Out? {
      OneMore(s.history, Call(ch.t, ch.op));
    } else if th.pc.Return? {
      OneMore(s.history, Ret(ch.t, th.pc.res));
    }
  }

  /** Only threads that there are take steps. */
  ghost predicate Effective(n: nat, sched: seq<Choice>) { forall i :: 0 <= i < |sched| ==> sched[i].t < n }

  /** The steps so far, and those to come, are paid for by the calls. */
  ghost predicate Covered(s: State, n: nat, size: nat, steps: nat) {
    |s.threads| == n && |s.slots| == size && steps + Work(s) <= CallsIn(s.history) * (PerCall(n, size) + 1)
  }

  lemma StepCovered(s: State, c: seq<Ptr>, ch: Choice, n: nat, size: nat, steps: nat)
    requires Inv(s, c) && Covered(s, n, size, steps) && ch.t < n
    ensures Covered(Step(s, ch), n, size, steps + 1)
  {
    var s' := Step(s, ch);
    CallsStep(s, ch);
    StepSize(s, ch);
    if s.threads[ch.t].Out? {
      CallWork(s, ch);
    } else {
      StepWork(s, c, ch);
    }
    Paid(steps, Work(s), Work(s'), CallsIn(s.history), CallsIn(s'.history), PerCall(n, size));
  }

  lemma {:induction false} RunCovered(n: nat, size: nat, sched: seq<Choice>) returns (c: seq<Ptr>)
    requires Effective(n, sched)
    ensures Inv(Run(n, size, sched), c) && Covered(Run(n, size, sched), n, size, |sched|)
  {
    if sched == [] {
      InitInv(n, size);
      c := [];
      SumZero(Costs(Init(n, size), Init(n, size).threads, n));
    } else {
      var s, ch := Run(n, size, sched[..|sched| - 1]), sched[|sched| - 1];
      c := RunCovered(n, size, sched[..|sched| - 1]);
      StepCovered(s, c, ch, n, size, |sched| - 1);
      var xs := StepMatch(s, c, ch);
      c := ChainAfter(s, c, ch);
    }
  }

  /** Lock-freedom: in every run of `n` threads there are at most (2 * size + 11) * (n + 1) + 1 steps to a call. */
  lemma LockFree(n: nat, size: nat, sched: seq<Choice>)
    requires Effective(n, sched)
    ensures |sched| <= CallsIn(Run(n, size, sched).history) * ((2 * size + 11) * (n + 1) + 1)
  {
    var c := RunCovered(n, size, sched);
    assert PerCall(n, size) == (2 * size + 11) * (n + 1);
  }
}
