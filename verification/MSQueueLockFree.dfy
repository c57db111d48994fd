/**
 The Michael-Scott queue is lock-free: operations may make each other start over, but only by getting on themselves, so
 that the number of steps of a run is bounded by the number of calls in it.
 */
module MSQueueLockFree {
  import opened Linearizability
  import opened Options
  import opened MSQueue
  import opened MSQueueProofs
  import opened MSQueueProgress
  import opened Potential

  // ---------------------------------------------------------------- the work that is left

  /** What the changes that an operation has yet to make to head, tail and links can cost `n` threads: each makes them
      all start over, which takes 15 steps. An `add` links a node, which moves the tail later; a `remove` moves the
      head. */
  function Credit(th: Thread, n: nat): nat {
    if th.Out? || th.pc.Return? || th.pc.SwingTail? then 0
    else if th.pc.NewNode? || th.pc.ReadTail? || th.pc.ReadNext? || th.pc.CheckTail? || th.pc.LinkNode?
      || th.pc.HelpTail? then 30 * n
    else 15 * n
  }

  function Cost(s: State, th: Thread, n: nat): nat { if th.Out? then 0 else Left(s, th.pc) + Credit(th, n) }

  function Costs(s: State, threads: seq<Thread>, n: nat): (r: seq<nat>)
    ensures |r| == |threads| && forall u :: 0 <= u < |threads| ==> r[u] == Cost(s, threads[u], n)
  {
    seq(|threads|, u requires 0 <= u < |threads| => Cost(s, threads[u], n))
  }

  /** The steps that can be taken before somebody calls again. */
  function Work(s: State): nat {
    Sum(Costs(s, s.threads, |s.threads|)) + if LinkedOn(s, s.tail) then 15 * |s.threads| else 0
  }

  lemma CostsUpdate(s: State, threads: seq<Thread>, n: nat, t: nat, th: Thread)
    requires t < |threads|
    ensures Sum(Costs(s, threads[t := th], n)) + Cost(s, threads[t], n) == Sum(Costs(s, threads, n)) + Cost(s, th, n)
  {
    SumUpdate(Costs(s, threads, n), t, Cost(s, th, n));
    assert Costs(s, threads[t := th], n) == Costs(s, threads, n)[t := Cost(s, th, n)];
  }

  // ---------------------------------------------------------------- what a step does to the work

  /** Head, tail and links stay. */
  ghost predicate SameLinks(s: State, s': State) {
    && s'.head == s.head && s'.tail == s.tail && |s.nodes| <= |s'.nodes|
    && forall p :: 0 <= p < |s.nodes| ==> s'.nodes[p].next == s.nodes[p].next
  }

  /** What a thread follows is there. */
  lemma Followed(s: State, c: seq<Ptr>, h: nat, k: nat, th: Thread)
    requires Shape(s.nodes, s.head, s.tail, c, h, k) && ThreadOk(s.nodes, c, h, k, th) && th.In?
    ensures th.pc.LinkNode? || th.pc.CheckTail? ==> Valid(s, th.pc.tail)
    ensures th.pc.DReadNext? ==> Valid(s, th.pc.head)
  {
  }

  lemma SameLeft(s: State, c: seq<Ptr>, h: nat, k: nat, s': State, th: Thread, n: nat)
    requires Shape(s.nodes, s.head, s.tail, c, h, k) && ThreadOk(s.nodes, c, h, k, th) && SameLinks(s, s')
    ensures Cost(s', th, n) == Cost(s, th, n)
  {
    TailAt(s, c, h, k);
    assert AddLeft(s') == AddLeft(s) && RemoveLeft(s') == RemoveLeft(s);
    if th.In? { LeftFollowed(s, c, h, k, s', th); }
  }

  lemma LeftFollowed(s: State, c: seq<Ptr>, h: nat, k: nat, s': State, th: Thread)
    requires Shape(s.nodes, s.head, s.tail, c, h, k) && ThreadOk(s.nodes, c, h, k, th) && SameLinks(s, s') && th.In?
    requires AddLeft(s') == AddLeft(s) && RemoveLeft(s') == RemoveLeft(s)
    ensures Left(s', th.pc) == Left(s, th.pc)
  {
    Followed(s, c, h, k, th);
  }

  lemma QuietWork(s: State, c: seq<Ptr>, h: nat, k: nat, s': State, t: nat)
    requires Inv(s, c, h, k) && t < |s.threads| == |s'.threads| && s'.threads == s.threads[t := s'.threads[t]]
    requires SameLinks(s, s')
    ensures Work(s') + Cost(s, s.threads[t], |s.threads|) == Work(s) + Cost(s', s'.threads[t], |s.threads|)
  {
    var n := |s.threads|;
    forall u | 0 <= u < n
      ensures Cost(s', s.threads[u], n) == Cost(s, s.threads[u], n)
    {
      assert ThreadOk(s.nodes, c, h, k, s.threads[u]);
      SameLeft(s, c, h, k, s', s.threads[u], n);
    }
    assert Costs(s', s.threads, n) == Costs(s, s.threads, n);
    CostsUpdate(s', s.threads, n, t, s'.threads[t]);
    TailAt(s, c, h, k);
  }

  /** A step that changes head, tail or a link makes everybody start over at worst. */
  lemma ChangeWork(s: State, s': State, t: nat)
    requires t < |s.threads| == |s'.threads| && s'.threads == s.threads[t := s'.threads[t]]
    ensures var n := |s.threads|;
      Sum(Costs(s', s'.threads, n)) + Cost(s, s.threads[t], n)
        <= Sum(Costs(s, s.threads, n)) + 15 * n + Cost(s', s'.threads[t], n)
  {
    var n, others := |s.threads|, s.threads[t := Out];
    CostsUpdate(s, s.threads, n, t, Out);
    forall u | 0 <= u < n ensures Cost(s', others[u], n) <= Cost(s, others[u], n) + 15 {
      if others[u].In? { LeftBound(s', others[u].pc); }
    }
    SumRise(Costs(s, others, n), Costs(s', others, n), 15);
    CostsUpdate(s', others, n, t, s'.threads[t]);
    assert others[t := s'.threads[t]] == s'.threads;
  }

  lemma TailWork(s: State, c: seq<Ptr>, h: nat, k: nat, ch: Choice)
    requires Inv(s, c, h, k) && ch.t < |s.threads| && s.threads[ch.t].In?
    requires var pc := s.threads[ch.t].pc; (pc.HelpTail? || pc.SwingTail? || pc.DHelpTail?) && s.tail == pc.tail
    ensures Work(Step(s, ch)) < Work(s)
  {
    var t, s', pc := ch.t, Step(s, ch), s.threads[ch.t].pc;
    assert ThreadOk(s.nodes, c, h, k, s.threads[t]);
    TailAt(s, c, h, k);
    var next := if pc.SwingTail? then Ref(Some(pc.nd), 0) else pc.next;
    TailShape(s.nodes, s.head, s.tail, c, h, k, next, s'.tail);
    TailAt(s', c, h, k + 1);
    ChangeWork(s, s', t);
    StepNearer(s, c, h, k, ch);
  }

  lemma LinkWork(s: State, c: seq<Ptr>, h: nat, k: nat, ch: Choice)
    requires Inv(s, c, h, k) && ch.t < |s.threads| && s.threads[ch.t].In?
    requires var pc := s.threads[ch.t].pc;
      pc.LinkNode? && Valid(s, pc.tail) && s.nodes[pc.tail.ptr.value].next == pc.next
    ensures Work(Step(s, ch)) < Work(s)
  {
    var t, s', pc := ch.t, Step(s, ch), s.threads[ch.t].pc;
    assert ThreadOk(s.nodes, c, h, k, s.threads[t]);
    LinkStep(s, c, h, k, s', t, s.threads[t].op, pc.nd, pc.tail, pc.next, Next(s, pc.next.stamp));
    TailAt(s, c, h, k);
    TailAt(s', c + [pc.nd], h, k);
    ChangeWork(s, s', t);
  }

  lemma HeadWork(s: State, c: seq<Ptr>, h: nat, k: nat, ch: Choice)
    requires Inv(s, c, h, k) && ch.t < |s.threads| && s.threads[ch.t].In?
    requires s.threads[ch.t].pc.DSwingHead? && s.head == s.threads[ch.t].pc.head
    ensures Work(Step(s, ch)) < Work(s)
  {
    ChangeWork(s, Step(s, ch), ch.t);
  }

  lemma OtherWork(s: State, c: seq<Ptr>, h: nat, k: nat, ch: Choice)
    requires Inv(s, c, h, k) && ch.t < |s.threads| && s.threads[ch.t].In? && SameLinks(s, Step(s, ch))
    ensures Work(Step(s, ch)) < Work(s)
  {
    var t, s' := ch.t, Step(s, ch);
    StepNearer(s, c, h, k, ch);
    QuietWork(s, c, h, k, s', t);
    CreditFalls(s, ch);
  }

  lemma CreditFalls(s: State, ch: Choice)
    requires ch.t < |s.threads| && s.threads[ch.t].In?
    ensures Credit(Step(s, ch).threads[ch.t], |s.threads|) <= Credit(s.threads[ch.t], |s.threads|)
  {
  }

  /** Every step of an operation lessens the work. */
  lemma StepWork(s: State, c: seq<Ptr>, h: nat, k: nat, ch: Choice)
    requires Inv(s, c, h, k) && ch.t < |s.threads| && s.threads[ch.t].In?
    ensures Work(Step(s, ch)) < Work(s)
  {
    var pc := s.threads[ch.t].pc;
    if (pc.HelpTail? || pc.SwingTail? || pc.DHelpTail?) && s.tail == pc.tail {
      TailWork(s, c, h, k, ch);
    } else if pc.LinkNode? && Valid(s, pc.tail) && s.nodes[pc.tail.ptr.value].next == pc.next {
      LinkWork(s, c, h, k, ch);
    } else if pc.DSwingHead? && s.head == pc.head {
      HeadWork(s, c, h, k, ch);
    } else {
      Unlinked(s, ch);
      OtherWork(s, c, h, k, ch);
    }
  }

  lemma Unlinked(s: State, ch: Choice)
    requires ch.t < |s.threads| && s.threads[ch.t].In?
    requires var pc := s.threads[ch.t].pc;
      && !((pc.HelpTail? || pc.SwingTail? || pc.DHelpTail?) && s.tail == pc.tail)
      && !(pc.LinkNode? && Valid(s, pc.tail) && s.nodes[pc.tail.ptr.value].next == pc.next)
      && !(pc.DSwingHead? && s.head == pc.head)
    ensures SameLinks(s, Step(s, ch))
  {
  }

  /** A call brings so much work. */
  function PerCall(n: nat): nat { 15 + 30 * n }

  lemma CallWork(s: State, c: seq<Ptr>, h: nat, k: nat, ch: Choice)
    requires Inv(s, c, h, k) && ch.t < |s.threads| && s.threads[ch.t].Out?
    ensures Work(Step(s, ch)) <= Work(s) + PerCall(|s.threads|)
  {
    var s' := Step(s, ch);
    QuietWork(s, c, h, k, s', ch.t);
    LeftBound(s', s'.threads[ch.t].pc);
  }

  // ---------------------------------------------------------------- whole runs

  lemma CallsStep(s: State, ch: Choice)
    requires ch.t < |s.threads|
    ensures CallsIn(Step(s, ch).history) == CallsIn(s.history) + if s.threads[ch.t].Out? then 1 else 0
  {
    var th := s.threads[ch.t];
    if th.Out? {
      OneMore(s.history, Call(ch.t, ch.op));
    } else if th.pc.Return? {
      OneMore(s.history, Ret(ch.t, th.pc.res));
    }
  }

  /** Only threads that there are take steps. */
  ghost predicate Effective(n: nat, sched: seq<Choice>) { forall i :: 0 <= i < |sched| ==> sched[i].t < n }

  /** The steps so far, and those to come, are paid for by the calls. */
  ghost predicate Covered(s: State, n: nat, steps: nat) {
    |s.threads| == n && steps + Work(s) <= CallsIn(s.history) * (PerCall(n) + 1)
  }

  lemma StepCovered(s: State, c: seq<Ptr>, h: nat, k: nat, ch: Choice, n: nat, steps: nat)
    requires Inv(s, c, h, k) && Covered(s, n, steps) && ch.t < n
    ensures Covered(Step(s, ch), n, steps + 1)
  {
    var s' := Step(s, ch);
    CallsStep(s, ch);
    if s.threads[ch.t].Out? {
      CallWork(s, c, h, k, ch);
    } else {
      StepWork(s, c, h, k, ch);
    }
    Paid(steps, Work(s), Work(s'), CallsIn(s.history), CallsIn(s'.history), PerCall(n));
  }

  lemma {:induction false} RunCovered(n: nat, wrap: Wrap, sched: seq<Choice>) returns (c: seq<Ptr>, h: nat, k: nat)
    requires Effective(n, sched)
    ensures Inv(Run(n, wrap, sched), c, h, k) && Covered(Run(n, wrap, sched), n, |sched|)
  {
    if sched == [] {
      InitInv(n, wrap);
      c, h, k := [0], 0, 0;
      SumZero(Costs(Init(n, wrap), Init(n, wrap).threads, n));
    } else {
      var s, ch := Run(n, wrap, sched[..|sched| - 1]), sched[|sched| - 1];
      var c0, h0, k0 := RunCovered(n, wrap, sched[..|sched| - 1]);
      c, h, k := StepKeepsInv(s, c0, h0, k0, ch);
      StepCovered(s, c0, h0, k0, ch, n, |sched| - 1);
    }
  }

  /** Lock-freedom: in every run of `n` threads there are at most 16 + 30 n steps to a call. */
  lemma LockFree(n: nat, wrap: Wrap, sched: seq<Choice>)
    requires Effective(n, sched)
    ensures |sched| <= CallsIn(Run(n, wrap, sched).history) * (16 + 30 * n)
  {
    var c, h, k := RunCovered(n, wrap, sched);
  }
}
