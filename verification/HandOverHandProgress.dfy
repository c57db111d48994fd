/**
 Progress of the hand-over-hand list: whatever the schedule, the steps of a run that are not spent waiting are bounded
 by the number of calls in it; and an operation that finds the others gone returns, with the answer of the set.
 */
module HandOverHandProgress {
  import opened Linearizability
  import opened Options
  import opened HandOverHandList
  import opened HandOverHandProofs
  import opened Potential

  // ---------------------------------------------------------------- the chain

  lemma {:induction false} SameUpto(heap: map<Ptr, Node>, c: seq<Ptr>, d: seq<Ptr>, i: nat)
    requires Chain(heap, c) && Chain(heap, d) && i < |c| && i < |d|
    ensures c[i] == d[i]
  {
    if i > 0 {
      SameUpto(heap, c, d, i - 1);
      assert heap[c[i - 1]].next == Some(c[i - 1 + 1]) && heap[d[i - 1]].next == Some(d[i - 1 + 1]);
    }
  }

  /** A heap has one chain. */
  lemma ChainUnique(heap: map<Ptr, Node>, c: seq<Ptr>, d: seq<Ptr>)
    requires Chain(heap, c) && Chain(heap, d)
    ensures c == d
  {
    var m := if |c| <= |d| then |c| else |d|;
    SameUpto(heap, c, d, m - 1);
    forall i | 0 <= i < m ensures c[i] == d[i] { SameUpto(heap, c, d, i); }
  }

  /** How many nodes lie behind `p`. */
  ghost function Ahead(c: seq<Ptr>, p: Ptr): nat { if p in c then |c| - 1 - Position(c, p) else 0 }

  lemma AheadIs(heap: map<Ptr, Node>, c: seq<Ptr>, i: nat)
    requires Chain(heap, c) && i < |c|
    ensures Ahead(c, c[i]) == |c| - 1 - i
  {
    var k := Position(c, c[i]);
    assert !(k < i) && !(i < k);
  }

  lemma AheadNext(heap: map<Ptr, Node>, c: seq<Ptr>, p: Ptr)
    requires Chain(heap, c) && p in c && p != TAIL
    ensures heap[p].next.Some? && Ahead(c, p) == Ahead(c, heap[p].next.value) + 1
  {
    var k := Position(c, p);
    assert heap[c[k]].next == Some(c[k + 1]);
    AheadIs(heap, c, k);
    AheadIs(heap, c, k + 1);
  }

  // ---------------------------------------------------------------- how many steps are left

  /** The steps until the return, at most, waiting for a mutex not counted: five to a node, and then the end. */
  ghost function Left(c: seq<Ptr>, pc: PC): nat {
    match pc
    case Start => 5 * |c| + 10
    case First => 5 * |c| + 9
    case Wait(_, curr) => 5 * Ahead(c, curr) + 14
    case Drop(_, curr) => 5 * Ahead(c, curr) + 13
    case Test(_, curr) => 5 * Ahead(c, curr) + 12
    case Release(_, curr) => 5 * Ahead(c, curr) + 11
    case Advance(curr) => 5 * Ahead(c, curr) + 10
    case Alloc(_, _) => 5
    case Link(_, _, _) => 4
    case ReadNext(_, _) => 6
    case Unlink(_, _, _) => 5
    case UnlockRemoved(_, _) => 4
    case Free(_, _) => 3
    case UnlockBoth(_, _, _) => 3
    case UnlockLast(_, _) => 2
    case Return(_) => 1
  }

  /** The node that a crawling thread has come to. */
  function Crawls(pc: PC): Option<Ptr> {
    match pc
    case Wait(_, curr) => Some(curr)
    case Drop(_, curr) => Some(curr)
    case Test(_, curr) => Some(curr)
    case Release(_, curr) => Some(curr)
    case Advance(curr) => Some(curr)
    case _ => None
  }

  lemma CrawlsOn(heap: map<Ptr, Node>, c: seq<Ptr>, th: Thread)
    requires Chain(heap, c) && ThreadOk(heap, c, th) && th.In? && Crawls(th.pc).Some?
    ensures Crawls(th.pc).value in c && Crawls(th.pc).value != HEAD
  {
    if th.pc.Wait? || th.pc.Drop? || (th.pc.Test? && !th.op.Contains?) { NextOnChain(heap, c, th.pc.pred); }
  }

  // ---------------------------------------------------------------- what a step does to the chain

  /** The chain after a step: longer by a node, shorter by a node, or the same. */
  ghost predicate Evolves(pc: PC, c: seq<Ptr>, c': seq<Ptr>) {
    match pc
    case Link(_, _, node) => exists k :: Inserted(c, k, node, c')
    case Unlink(_, _, _) => exists k :: Deleted(c, k, c')
    case _ => c' == c
  }

  lemma With(heap: map<Ptr, Node>, c: seq<Ptr>, pred: Ptr, curr: Ptr, node: Ptr) returns (k: nat, d: seq<Ptr>)
    requires Chain(heap, c) && pred in c && pred != TAIL && heap[pred].next == Some(curr)
    ensures k < |c| - 1 && c[k] == pred && c[k + 1] == curr && Inserted(c, k, node, d)
  {
    k := Position(c, pred);
    assert heap[c[k]].next == Some(c[k + 1]);
    d := c[..k + 1] + [node] + c[k + 1..];
  }

  lemma LinkEvolves(s: State, c: seq<Ptr>, ch: Choice) returns (c': seq<Ptr>)
    requires Inv(s, c) && ch.t < |s.threads| && s.threads[ch.t].In? && s.threads[ch.t].pc.Link?
    ensures Inv(Step(s, ch), c') && Evolves(s.threads[ch.t].pc, c, c')
  {
    var t, s' := ch.t, Step(s, ch);
    var op, pc := s.threads[t].op, s.threads[t].pc;
    assert ThreadOk(s.heap, c, s.threads[t]);
    HeldAllocated(s, c, t, pc.pred);
    c' := LinkMatch(s, c, s', t, op, pc.pred, pc.curr, pc.node);
    var k, d := With(s.heap, c, pc.pred, pc.curr, pc.node);
    LinkChain(s.heap, s'.heap, c, k, pc.node, op.x, d);
    ChainUnique(s'.heap, c', d);
  }

  lemma Without(heap: map<Ptr, Node>, c: seq<Ptr>, pred: Ptr, curr: Ptr, succ: Ptr) returns (k: nat, d: seq<Ptr>)
    requires Chain(heap, c) && pred in c && pred != TAIL && heap[pred].next == Some(curr)
    requires curr in c && curr != TAIL && heap[curr].next == Some(succ)
    ensures k < |c| - 2 && c[k] == pred && c[k + 2] == succ && Deleted(c, k, d)
  {
    k := Position(c, pred);
    assert heap[c[k]].next == Some(c[k + 1]) && heap[c[k + 1]].next == Some(c[k + 1 + 1]);
    d := c[..k + 1] + c[k + 2..];
  }

  lemma UnlinkEvolves(s: State, c: seq<Ptr>, ch: Choice) returns (c': seq<Ptr>)
    requires Inv(s, c) && ch.t < |s.threads| && s.threads[ch.t].In? && s.threads[ch.t].pc.Unlink?
    ensures Inv(Step(s, ch), c') && Evolves(s.threads[ch.t].pc, c, c')
  {
    var t, s' := ch.t, Step(s, ch);
    var op, pc := s.threads[t].op, s.threads[t].pc;
    assert ThreadOk(s.heap, c, s.threads[t]);
    HeldAllocated(s, c, t, pc.pred);
    c' := UnlinkMatch(s, c, s', t, op, pc.pred, pc.curr, pc.succ);
    var k, d := Without(s.heap, c, pc.pred, pc.curr, pc.succ);
    UnlinkChain(s.heap, s'.heap, c, k, d);
    ChainUnique(s'.heap, c', d);
  }

  lemma StepEvolves(s: State, c: seq<Ptr>, ch: Choice) returns (c': seq<Ptr>)
    requires Inv(s, c) && ch.t < |s.threads| && s.threads[ch.t].In?
    ensures Inv(Step(s, ch), c') && Evolves(s.threads[ch.t].pc, c, c')
  {
    var pc := s.threads[ch.t].pc;
    var xs;
    c' := c;
    if pc.Start? || pc.Wait? {
      StepEnter(s, c, ch);
    } else if pc.First? || pc.Advance? {
      StepRead(s, c, ch);
    } else if pc.Drop? || pc.Test? || pc.Release? {
      xs := StepLeave(s, c, ch);
    } else if pc.Link? {
      c' := LinkEvolves(s, c, ch);
    } else if pc.Unlink? {
      c' := UnlinkEvolves(s, c, ch);
    } else if pc.Alloc? || pc.ReadNext? {
      OwnEvolves(s, c, ch);
    } else {
      xs := StepFinish(s, c, ch);
    }
  }

  lemma OwnEvolves(s: State, c: seq<Ptr>, ch: Choice)
    requires Inv(s, c) && ch.t < |s.threads| && s.threads[ch.t].In?
    requires s.threads[ch.t].pc.Alloc? || s.threads[ch.t].pc.ReadNext?
    ensures Inv(Step(s, ch), c)
  {
    var t, s' := ch.t, Step(s, ch);
    var op, pc := s.threads[t].op, s.threads[t].pc;
    assert ThreadOk(s.heap, c, s.threads[t]);
    if pc.ReadNext? {
      NextOnChain(s.heap, c, pc.curr);
      ReadMatch(s, c, t, op, pc, Unlink(pc.pred, pc.curr, s.heap[pc.curr].next.value));
    } else if ch.addr !in s.heap {
      AllocMatch(s, c, s', t, op, pc.pred, pc.curr, ch.addr);
    }
  }

  // ---------------------------------------------------------------- nearer to the return

  /** One step of a thread that is inside and not kept waiting: it returns, or is nearer to returning. */
  ghost predicate Nearer(s: State, c: seq<Ptr>, s': State, c': seq<Ptr>, t: nat)
    requires t < |s.threads| == |s'.threads| && s.threads[t].In?
  {
    if s.threads[t].pc.Return? then s'.threads == s.threads[t := Out]
    else s'.threads == s.threads[t := s'.threads[t]] && s'.threads[t].In? && s'.history == s.history
         && Left(c', s'.threads[t].pc) < Left(c, s.threads[t].pc)
  }

  /** A step of thread `t` that is neither kept waiting nor at fault. */
  ghost predicate Moves(s: State, ch: Choice) {
    ch.t < |s.threads| && s.threads[ch.t].In? && Step(s, ch) != s && !Step(s, ch).fault && !s.fault
  }

  lemma CrawlNearer(s: State, c: seq<Ptr>, ch: Choice)
    requires Moves(s, ch) && Chain(s.heap, c) && ThreadOk(s.heap, c, s.threads[ch.t])
    requires var pc := s.threads[ch.t].pc; pc.First? || pc.Wait? || pc.Drop? || pc.Advance?
    ensures |Step(s, ch).threads| == |s.threads| && Nearer(s, c, Step(s, ch), c, ch.t)
  {
    var pc := s.threads[ch.t].pc;
    if pc.First? { AheadNext(s.heap, c, HEAD); AheadIs(s.heap, c, 0); }
    if pc.Advance? { AheadNext(s.heap, c, pc.curr); }
  }

  lemma TestNearer(s: State, c: seq<Ptr>, ch: Choice)
    requires Moves(s, ch)
    requires s.threads[ch.t].pc.Start? || s.threads[ch.t].pc.Test? || s.threads[ch.t].pc.Release?
    ensures |Step(s, ch).threads| == |s.threads| && Nearer(s, c, Step(s, ch), c, ch.t)
  {
  }

  lemma UpdateNearer(s: State, c: seq<Ptr>, c': seq<Ptr>, ch: Choice)
    requires Moves(s, ch)
    requires var pc := s.threads[ch.t].pc; pc.Alloc? || pc.Link? || pc.ReadNext? || pc.Unlink?
    ensures |Step(s, ch).threads| == |s.threads| && Nearer(s, c, Step(s, ch), c', ch.t)
  {
  }

  lemma EndNearer(s: State, c: seq<Ptr>, c': seq<Ptr>, ch: Choice)
    requires Moves(s, ch)
    requires var pc := s.threads[ch.t].pc;
      pc.UnlockRemoved? || pc.Free? || pc.UnlockBoth? || pc.UnlockLast? || pc.Return?
    ensures |Step(s, ch).threads| == |s.threads| && Nearer(s, c, Step(s, ch), c', ch.t)
  {
  }

  lemma StepNearer(s: State, c: seq<Ptr>, ch: Choice) returns (c': seq<Ptr>)
    requires Inv(s, c) && ch.t < |s.threads| && s.threads[ch.t].In? && Step(s, ch) != s
    ensures |Step(s, ch).threads| == |s.threads| && Inv(Step(s, ch), c') && Evolves(s.threads[ch.t].pc, c, c')
    ensures Nearer(s, c, Step(s, ch), c', ch.t)
  {
    var pc := s.threads[ch.t].pc;
    c' := StepEvolves(s, c, ch);
    assert ThreadOk(s.heap, c, s.threads[ch.t]);
    if pc.First? || pc.Wait? || pc.Drop? || pc.Advance? {
      CrawlNearer(s, c, ch);
    } else if pc.Start? || pc.Test? || pc.Release? {
      TestNearer(s, c, ch);
    } else if pc.Alloc? || pc.Link? || pc.ReadNext? || pc.Unlink? {
      UpdateNearer(s, c, c', ch);
    } else {
      EndNearer(s, c, c', ch);
    }
  }

  // ---------------------------------------------------------------- the work that is left

  /** An insertion that may yet link its node. */
  predicate Unlinked(th: Thread) {
    th.In? && th.op.Insert? && !(th.pc.UnlockBoth? || th.pc.UnlockLast? || th.pc.Return?)
  }

  /** A node more on the chain costs each of `n` threads five steps. */
  function Credit(th: Thread, n: nat): nat { if Unlinked(th) then 5 * n else 0 }

  ghost function Cost(c: seq<Ptr>, th: Thread, n: nat): nat { if th.Out? then 0 else Left(c, th.pc) + Credit(th, n) }

  ghost function Costs(c: seq<Ptr>, threads: seq<Thread>, n: nat): (r: seq<nat>)
    ensures |r| == |threads| && forall u :: 0 <= u < |threads| ==> r[u] == Cost(c, threads[u], n)
  {
    seq(|threads|, u requires 0 <= u < |threads| => Cost(c, threads[u], n))
  }

  /** The steps that can be taken before somebody calls again. */
  ghost function Work(c: seq<Ptr>, threads: seq<Thread>): nat { Sum(Costs(c, threads, |threads|)) }

  /** The nodes that may yet be linked. */
  function Pending(threads: seq<Thread>): (r: seq<nat>)
    ensures |r| == |threads| && forall u :: 0 <= u < |threads| ==> r[u] == if Unlinked(threads[u]) then 1 else 0
  {
    seq(|threads|, u requires 0 <= u < |threads| => if Unlinked(threads[u]) then 1 else 0)
  }

  lemma CostsUpdate(c: seq<Ptr>, threads: seq<Thread>, n: nat, t: nat, th: Thread)
    requires t < |threads|
    ensures Sum(Costs(c, threads[t := th], n)) + Cost(c, threads[t], n) == Sum(Costs(c, threads, n)) + Cost(c, th, n)
  {
    SumUpdate(Costs(c, threads, n), t, Cost(c, th, n));
    assert Costs(c, threads[t := th], n) == Costs(c, threads, n)[t := Cost(c, th, n)];
  }

  lemma PendingUpdate(threads: seq<Thread>, t: nat, th: Thread)
    requires t < |threads|
    ensures Sum(Pending(threads[t := th])) + (if Unlinked(threads[t]) then 1 else 0)
      == Sum(Pending(threads)) + if Unlinked(th) then 1 else 0
  {
    var x := if Unlinked(th) then 1 else 0;
    SumUpdate(Pending(threads), t, x);
    assert Pending(threads[t := th]) == Pending(threads)[t := x];
  }

  lemma AheadInserted(heap: map<Ptr, Node>, c: seq<Ptr>, heap': map<Ptr, Node>, c': seq<Ptr>, k: nat, node: Ptr, p: Ptr)
    requires Chain(heap, c) && Chain(heap', c') && Inserted(c, k, node, c') && p in c
    ensures Ahead(c', p) <= Ahead(c, p) + 1
  {
    var i := Position(c, p);
    var j := if i <= k then i else i + 1;
    assert c'[j] == c[i];
    AheadIs(heap, c, i);
    AheadIs(heap', c', j);
  }

  lemma AheadDeleted(heap: map<Ptr, Node>, c: seq<Ptr>, heap': map<Ptr, Node>, c': seq<Ptr>, k: nat, p: Ptr)
    requires Chain(heap, c) && Chain(heap', c') && Deleted(c, k, c') && p in c'
    ensures Ahead(c', p) <= Ahead(c, p)
  {
    var j := Position(c', p);
    var i := if j <= k then j else j + 1;
    assert c'[j] == c[i];
    AheadIs(heap, c, i);
    AheadIs(heap', c', j);
  }

  /** What a step of another thread may add to the steps that are left. */
  lemma OtherLeft(s: State, c: seq<Ptr>, s': State, c': seq<Ptr>, pc: PC, u: nat)
    requires Inv(s, c) && Inv(s', c') && Evolves(pc, c, c') && u < |s.threads| == |s'.threads|
    requires s'.threads[u] == s.threads[u] && s.threads[u].In?
    ensures Left(c', s.threads[u].pc) <= Left(c, s.threads[u].pc) + if pc.Link? then 5 else 0
  {
    var th := s.threads[u];
    assert ThreadOk(s.heap, c, th) && ThreadOk(s'.heap, c', s'.threads[u]);
    var p := Crawls(th.pc);
    if p.Some? {
      CrawlsOn(s.heap, c, th);
      CrawlsOn(s'.heap, c', th);
      AheadEvolves(s.heap, c, s'.heap, c', pc, p.value);
    }
    LengthEvolves(pc, c, c');
  }

  lemma LengthEvolves(pc: PC, c: seq<Ptr>, c': seq<Ptr>)
    requires Evolves(pc, c, c')
    ensures |c'| == |c| + if pc.Link? then 1 else if pc.Unlink? then -1 else 0
  {
  }

  lemma AheadEvolves(heap: map<Ptr, Node>, c: seq<Ptr>, heap': map<Ptr, Node>, c': seq<Ptr>, pc: PC, p: Ptr)
    requires Chain(heap, c) && Chain(heap', c') && Evolves(pc, c, c') && p in c && p in c'
    ensures Ahead(c', p) <= Ahead(c, p) + if pc.Link? then 1 else 0
  {
    if pc.Link? {
      var k :| Inserted(c, k, pc.node, c');
      AheadInserted(heap, c, heap', c', k, pc.node, p);
    } else if pc.Unlink? {
      var k :| Deleted(c, k, c');
      AheadDeleted(heap, c, heap', c', k, p);
    }
  }

  lemma OthersWork(s: State, c: seq<Ptr>, s': State, c': seq<Ptr>, pc: PC, t: nat)
    requires Inv(s, c) && Inv(s', c') && Evolves(pc, c, c') && t < |s.threads| == |s'.threads|
    requires s'.threads == s.threads[t := s'.threads[t]]
    ensures var n := |s.threads|;
      Work(c', s'.threads) + Cost(c, s.threads[t], n)
        <= Work(c, s.threads) + (if pc.Link? then 5 * n else 0) + Cost(c', s'.threads[t], n)
  {
    var n, others, d := |s.threads|, s.threads[t := Out], if pc.Link? then 5 else 0;
    CostsUpdate(c, s.threads, n, t, Out);
    forall u | 0 <= u < n ensures Cost(c', others[u], n) <= Cost(c, others[u], n) + d {
      if others[u].In? { OtherLeft(s, c, s', c', pc, u); }
    }
    SumRise(Costs(c, others, n), Costs(c', others, n), d);
    CostsUpdate(c', others, n, t, s'.threads[t]);
    assert others[t := s'.threads[t]] == s'.threads;
  }

  lemma CreditFalls(s: State, ch: Choice)
    requires Moves(s, ch)
    ensures |Step(s, ch).threads| == |s.threads|
    ensures Unlinked(Step(s, ch).threads[ch.t]) ==> Unlinked(s.threads[ch.t])
    ensures s.threads[ch.t].pc.Link? ==> !Unlinked(Step(s, ch).threads[ch.t])
  {
  }

  /** Every step of an operation that is not kept waiting lessens the work. */
  lemma StepWork(s: State, c: seq<Ptr>, ch: Choice) returns (c': seq<Ptr>)
    requires Inv(s, c) && ch.t < |s.threads| && s.threads[ch.t].In? && Step(s, ch) != s
    ensures var s' := Step(s, ch);
      && |s'.threads| == |s.threads| && Inv(s', c') && Work(c', s'.threads) < Work(c, s.threads)
      && |c'| + Sum(Pending(s'.threads)) <= |c| + Sum(Pending(s.threads))
  {
    var t, s', pc := ch.t, Step(s, ch), s.threads[ch.t].pc;
    assert ThreadOk(s.heap, c, s.threads[t]);
    c' := StepNearer(s, c, ch);
    OthersWork(s, c, s', c', pc, t);
    CreditFalls(s, ch);
    LengthEvolves(pc, c, c');
    PendingUpdate(s.threads, t, s'.threads[t]);
  }

  lemma CallWork(s: State, c: seq<Ptr>, ch: Choice)
    requires Inv(s, c) && ch.t < |s.threads| && s.threads[ch.t].Out?
    ensures var s' := Step(s, ch);
      && |s'.threads| == |s.threads| && Inv(s', c)
      && Work(c, s'.threads) <= Work(c, s.threads) + 5 * |c| + 10 + 5 * |s.threads|
      && Sum(Pending(s'.threads)) <= Sum(Pending(s.threads)) + 1
  {
    var s' := Step(s, ch);
    CallMatch(s, c, s', ch.t, ch.op);
    CostsUpdate(c, s.threads, |s.threads|, ch.t, s'.threads[ch.t]);
    PendingUpdate(s.threads, ch.t, s'.threads[ch.t]);
  }

  // ---------------------------------------------------------------- whole runs

  /** What `k` calls pay for. */
  function Price(k: nat, n: nat): nat { k * (5 * k + 5 * n + 21) }

  lemma PriceMore(k: nat, n: nat)
    ensures Price(k + 1, n) == Price(k, n) + 10 * k + 5 * n + 26
  {
    assert (k + 1) * (5 * (k + 1) + 5 * n + 21) == k * (5 * k + 5 * n + 21) + 5 * k + (5 * k + 5 * n + 26);
  }

  /** The steps so far, and those to come, are paid for by the calls, and so are the nodes. */
  ghost predicate Covered(s: State, c: seq<Ptr>, n: nat, steps: nat) {
    && Inv(s, c) && |s.threads| == n && |c| + Sum(Pending(s.threads)) <= 2 + CallsIn(s.history)
    && steps + Work(c, s.threads) <= Price(CallsIn(s.history), n)
  }

  lemma CallsStep(s: State, ch: Choice)
    requires ch.t < |s.threads|
    ensures CallsIn(Step(s, ch).history) == CallsIn(s.history) + if s.threads[ch.t].Out? then 1 else 0
  {
    var th := s.threads[ch.t];
    if th.Out? {
      OneMore(s.history, Call(ch.t, ch.op));
    } else if th.pc.Return? {
      OneMore(s.history, Ret(ch.t, th.pc.res));
    }
  }

  lemma StepCovered(s: State, c: seq<Ptr>, ch: Choice, n: nat, steps: nat) returns (c': seq<Ptr>)
    requires Covered(s, c, n, steps) && Step(s, ch) != s
    ensures Covered(Step(s, ch), c', n, steps + 1)
  {
    CallsStep(s, ch);
    if s.threads[ch.t].Out? {
      c' := c;
      CallWork(s, c, ch);
      PriceMore(CallsIn(s.history), n);
    } else {
      c' := StepWork(s, c, ch);
    }
  }

  /** No step is spent waiting: each of them changes the state. */
  ghost predicate Effective(n: nat, sched: seq<Choice>) {
    forall i :: 0 <= i < |sched| ==> Step(Run(n, sched[..i]), sched[i]) != Run(n, sched[..i])
  }

  lemma {:induction false} RunCovered(n: nat, sched: seq<Choice>) returns (c: seq<Ptr>)
    requires Effective(n, sched)
    ensures Covered(Run(n, sched), c, n, |sched|)
  {
    if sched == [] {
      InitInv(n);
      c := [HEAD, TAIL];
      SumZero(Costs(c, Init(n).threads, n));
      SumZero(Pending(Init(n).threads));
    } else {
      var m := |sched| - 1;
      forall i | 0 <= i < m ensures sched[..m][..i] == sched[..i] && sched[..m][i] == sched[i] {}
      c := RunCovered(n, sched[..m]);
      c := StepCovered(Run(n, sched[..m]), c, sched[m], n, m);
    }
  }

  /** Operations end: whatever the schedule, a run of `n` threads with `k` calls has at most k * (5 * k + 5 * n + 21)
      steps that are not spent waiting for a mutex. */
  lemma OperationsEnd(n: nat, sched: seq<Choice>)
    requires Effective(n, sched)
    ensures |sched| <= Price(CallsIn(Run(n, sched).history), n)
  {
    var c := RunCovered(n, sched);
  }

  // ---------------------------------------------------------------- an operation that finds the others gone

  function Follow(s: State, more: seq<Choice>): State
    decreases |more|
  {
    if more == [] then s else Follow(Step(s, more[0]), more[1..])
  }

  ghost predicate OthersOut(s: State, t: nat) { forall u :: 0 <= u < |s.threads| && u != t ==> s.threads[u].Out? }

  /** Nobody but the thread itself can stand in its way. */
  lemma NoneWaits(s: State, c: seq<Ptr>, t: nat)
    requires Inv(s, c) && t < |s.threads| && s.threads[t].In? && OthersOut(s, t)
    ensures CanMove(s, t)
  {
    assert ThreadOk(s.heap, c, s.threads[t]);
    if s.threads[t].pc.Wait? { NextOnChain(s.heap, c, s.threads[t].pc.pred); }
    OnlyLocksBlock(s, c, t);
  }

  /** Thread `t` alone takes the steps `more`, at most `bound` of them, and then has returned `r`. */
  ghost predicate ReturnsBy(s: State, t: nat, more: seq<Choice>, bound: nat, r: bool)
    requires t < |s.threads|
  {
    && |more| <= bound && (forall i :: 0 <= i < |more| ==> more[i].t == t)
    && Follow(s, more).threads == s.threads[t := Out] && Follow(s, more).history == s.history + [Ret(t, r)]
  }

  /** The atomic set keeps pace. */
  ghost predicate Paced(s: State, c: seq<Ptr>, s': State, c': seq<Ptr>, xs: seq<Action<Op, bool>>) {
    && Chain(s.heap, c) && Chain(s'.heap, c') && Exec(SetApply, Abs(s, c), xs) == Some(Abs(s', c'))
    && s'.history == s.history + Visible(xs)
  }

  lemma StepPaced(s: State, c: seq<Ptr>, ch: Choice) returns (c': seq<Ptr>, xs: seq<Action<Op, bool>>)
    requires Inv(s, c) && ch.t < |s.threads| && s.threads[ch.t].In? && Step(s, ch) != s
    ensures |Step(s, ch).threads| == |s.threads| && Inv(Step(s, ch), c') && Nearer(s, c, Step(s, ch), c', ch.t)
    ensures Paced(s, c, Step(s, ch), c', xs)
  {
    var d;
    c' := StepNearer(s, c, ch);
    d, xs := StepMatch(s, c, ch);
    ChainUnique(Step(s, ch).heap, c', d);
  }

  lemma {:induction false} Returns(s: State, c: seq<Ptr>, t: nat)
    returns (more: seq<Choice>, r: bool, c': seq<Ptr>, xs: seq<Action<Op, bool>>)
    requires Inv(s, c) && t < |s.threads| && s.threads[t].In? && OthersOut(s, t)
    ensures ReturnsBy(s, t, more, Left(c, s.threads[t].pc), r)
    ensures Inv(Follow(s, more), c') && Paced(s, c, Follow(s, more), c', xs)
    decreases Left(c, s.threads[t].pc)
  {
    NoneWaits(s, c, t);
    var ch: Choice :| ch.t == t && Step(s, ch) != s;
    var s', pc := Step(s, ch), s.threads[t].pc;
    var d, ys := StepPaced(s, c, ch);
    if pc.Return? {
      more, r, c', xs := [ch], pc.res, d, ys;
      assert Follow(s, [ch]) == Follow(s', [ch][1..]);
    } else {
      var rest;
      var zs;
      rest, r, c', zs := Returns(s', d, t);
      more, xs := [ch] + rest, ys + zs;
      ReturnsMore(s, s', t, ch, rest, Left(d, s'.threads[t].pc), r);
      PacedMore(s, c, s', d, ys, Follow(s', rest), c', zs);
      assert more[1..] == rest;
    }
  }

  lemma ReturnsMore(s: State, s': State, t: nat, ch: Choice, rest: seq<Choice>, bound: nat, r: bool)
    requires t < |s.threads| == |s'.threads| && s' == Step(s, ch) && ch.t == t && ReturnsBy(s', t, rest, bound, r)
    requires s'.threads == s.threads[t := s'.threads[t]] && s'.history == s.history
    ensures ReturnsBy(s, t, [ch] + rest, bound + 1, r)
  {
    assert ([ch] + rest)[1..] == rest && s'.threads[t := Out] == s.threads[t := Out];
  }

  lemma PacedMore(s: State, c: seq<Ptr>, s1: State, c1: seq<Ptr>, xs: seq<Action<Op, bool>>, s2: State, c2: seq<Ptr>,
                  ys: seq<Action<Op, bool>>)
    requires Paced(s, c, s1, c1, xs) && Paced(s1, c1, s2, c2, ys)
    ensures Paced(s, c, s2, c2, xs + ys)
  {
    ExecMore(SetApply, Abs(s, c), Abs(s1, c1), Abs(s2, c2), xs, ys);
    Regroup(s.history, Visible(xs), Visible(ys));
  }

  lemma ExecMore<S, O, R>(f: (S, O) -> (S, R), a: Atomic<S, O, R>, b: Atomic<S, O, R>, d: Atomic<S, O, R>,
                          xs: seq<Action<O, R>>, ys: seq<Action<O, R>>)
    requires Exec(f, a, xs) == Some(b) && Exec(f, b, ys) == Some(d)
    ensures Exec(f, a, xs + ys) == Some(d) && Visible(xs + ys) == Visible(xs) + Visible(ys)
  {
    ExecConcat(f, a, xs, ys);
  }

  lemma Regroup<T>(a: seq<T>, b: seq<T>, c: seq<T>)
    ensures a + b + c == a + (b + c)
  {
  }

  /** The keys strictly between head and tail. */
  ghost predicate Holds(s: State, keys: set<nat>) { exists c :: Chain(s.heap, c) && Keys(s.heap, c) == keys }

  /** What a call on a set of keys is to answer, and the keys it leaves. */
  ghost predicate Outcome(keys: set<nat>, op: Op, r: bool, keys': set<nat>) {
    match op
    case Contains(x) => r == (x in keys) && keys' == keys
    case Insert(x) => r == (x !in keys) && keys' == keys + {x}
    case Remove(x) => r == (x in keys) && keys' == keys - {x}
  }

  lemma OneTurn(n: nat, keys: set<nat>, t: nat, op: Op, r: bool, xs: seq<Action<Op, bool>>)
    requires Exec(SetApply, NewObject(keys, n), xs).Some? && Visible(xs) == [Call(t, op), Ret(t, r)]
    ensures Outcome(keys, op, r, Exec(SetApply, NewObject(keys, n), xs).value.obj)
  {
    var turns := [Turn(t, op, r)];
    assert turns[..0] == [] && turns[..1] == turns;
    assert OneByOne(turns) == OneByOne<Op, bool>([]) + [Call(t, op), Ret(t, r)];
    TurnsFollowed(SetApply, keys, n, turns, xs);
    assert AfterTurns(SetApply, keys, turns) == SetApply(AfterTurns(SetApply, keys, []), op).0;
  }

  function Members(xs: seq<nat>): set<nat> { if xs == [] then {} else Members(xs[..|xs| - 1]) + {xs[|xs| - 1]} }

  lemma {:induction false} MembersOf(xs: seq<nat>, y: nat)
    ensures y in Members(xs) <==> y in xs
  {
    if xs != [] {
      var m := |xs| - 1;
      MembersOf(xs[..m], y);
      assert xs == xs[..m] + [xs[m]];
    }
  }

  lemma {:induction false} Increasing(xs: seq<nat>)
    requires forall i, j :: 0 <= i < j < |xs| ==> xs[i] < xs[j]
    ensures |Members(xs)| == |xs|
  {
    if xs != [] {
      var m := |xs| - 1;
      Increasing(xs[..m]);
      MembersOf(xs[..m], xs[m]);
    }
  }

  lemma InKeys(heap: map<Ptr, Node>, c: seq<Ptr>, xs: seq<nat>, y: nat)
    requires Chain(heap, c) && |xs| == |c| - 2 && forall i :: 0 <= i < |xs| ==> xs[i] == heap[c[i + 1]].data
    ensures y in Keys(heap, c) <==> y in xs
  {
    if y in Keys(heap, c) {
      var i :| 0 < i < |c| - 1 && y == heap[c[i]].data;
      assert xs[i - 1] == heap[c[i - 1 + 1]].data;
    }
    if y in xs {
      var i :| 0 <= i < |xs| && xs[i] == y;
      assert heap[c[i + 1]].data == y;
    }
  }

  /** There are as many keys as nodes between head and tail. */
  lemma KeysCount(heap: map<Ptr, Node>, c: seq<Ptr>)
    requires Chain(heap, c)
    ensures |Keys(heap, c)| == |c| - 2
  {
    var xs := seq(|c| - 2, i requires 0 <= i < |c| - 2 => heap[c[i + 1]].data);
    Increasing(xs);
    forall y ensures y in Keys(heap, c) <==> y in Members(xs) {
      InKeys(heap, c, xs, y);
      MembersOf(xs, y);
    }
    assert Keys(heap, c) == Members(xs);
  }

  lemma Cancel<T>(a: seq<T>, b: seq<T>, c: seq<T>)
    requires a + b == a + c
    ensures b == c
  {
    assert (a + b)[|a|..] == b && (a + c)[|a|..] == c;
  }

  lemma CallAlone(s: State, c: seq<Ptr>, t: nat, op: Op) returns (more: seq<Choice>, r: bool, c': seq<Ptr>)
    requires Inv(s, c) && t < |s.threads| && s.threads[t].Out? && OthersOut(s, t)
    ensures var s1 := Step(s, Choice(t, op, 0));
      && |s1.threads| == |s.threads| && ReturnsBy(s1, t, more, 5 * |c| + 10, r)
      && Chain(Follow(s1, more).heap, c') && Outcome(Keys(s.heap, c), op, r, Keys(Follow(s1, more).heap, c'))
  {
    var n, s1 := |s.threads|, Step(s, Choice(t, op, 0));
    CallMatch(s, c, s1, t, op);
    var ys;
    more, r, c', ys := Returns(s1, c, t);
    var s2, zs := Follow(s1, more), [Call(t, op)] + ys;
    PacedMore(s, c, s1, c, [Call(t, op)], s2, c', ys);
    assert s2.history == s.history + [Call(t, op), Ret(t, r)];
    Cancel(s.history, Visible(zs), [Call(t, op), Ret(t, r)]);
    assert Abs(s, c) == NewObject(Keys(s.heap, c), n);
    OneTurn(n, Keys(s.heap, c), t, op, r, zs);
  }

  /** In every run: a call made when all other operations are over returns after at most 5 * |keys| + 20 steps, with the
      answer of the set; and it leaves the set that it should. */
  lemma SoloCall(n: nat, sched: seq<Choice>, t: nat, op: Op, keys: set<nat>)
    returns (more: seq<Choice>, r: bool, keys': set<nat>)
    requires var s := Run(n, sched); t < |s.threads| && s.threads[t].Out? && OthersOut(s, t) && Holds(s, keys)
    ensures var s := Step(Run(n, sched), Choice(t, op, 0));
      && |s.threads| == |Run(n, sched).threads| && ReturnsBy(s, t, more, 5 * |keys| + 20, r)
      && Outcome(keys, op, r, keys') && Holds(Follow(s, more), keys')
  {
    var s := Run(n, sched);
    var c, xs := RunMatch(n, sched);
    var d :| Chain(s.heap, d) && Keys(s.heap, d) == keys;
    ChainUnique(s.heap, c, d);
    KeysCount(s.heap, c);
    var c';
    more, r, c' := CallAlone(s, c, t, op);
    keys' := Keys(Follow(Step(s, Choice(t, op, 0)), more).heap, c');
  }
}
