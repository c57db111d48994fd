/**
 Progress of flat combining: while no other thread holds the combiner lock, a thread that runs by itself returns,
 wherever the others have stopped, whatever is combined and whatever values are added.
 */
module FlatCombiningProgress {
  import opened Linearizability
  import opened Options
  import opened Slots
  import opened FlatCombining
  import opened FlatCombiningProofs
  import opened FlatCombiningHeap
  import opened FlatCombiningQueue

  /** `m` steps of thread `t`, which is inside an operation, while the others stand still. */
  function Alone<S>(k: Service<S>, s: State<S>, t: nat, m: nat): State<S>
    decreases m
  {
    if m == 0 then s else Alone(k, Step(k, s, Choice(t, Remove)), t, m - 1)
  }

  /** A combiner that gets no answer has less before it the next time: `mu` says how much. */
  ghost predicate Answering<S(!new)>(k: Service<S>, mu: S -> nat) {
    forall o, x :: var (o', a) := k.serve(o, x); if a.None? then mu(o') < mu(o) else mu(o') <= mu(o)
  }

  // ---------------------------------------------------------------- how many steps are left

  /** How far a scan that is at `q` is from the end of the list `c`. */
  ghost function Depth(c: seq<nat>, q: nat): nat { if i :| 0 <= i < |c| && c[i] == q then i else 0 }

  lemma DepthIs(slots: seq<Slot>, tail: nat, c: seq<nat>, i: nat)
    requires Chain(slots, tail, c) && i < |c|
    ensures Depth(c, c[i]) == i
  {
    assert c[i] == c[i];
  }

  /** The steps from the start of scan number `i` out of `reps` to the release of the lock, on a list of `l` slots. */
  function TryLeft(reps: nat, i: nat, l: nat): nat
    decreases if i < reps then reps - i else 0
  {
    if i < reps then 4 * l + 2 + TryLeft(reps, i + 1, l) else 3
  }

  /** From posting the request: the way to the lock, and all scans. */
  function PostLeft(reps: nat, l: nat): nat { TryLeft(reps, 0, l) + 6 }

  /** The steps until the return, at most, if nobody else combines; chunk boundaries and the like not counted. */
  ghost function Left<S>(reps: nat, s: State<S>, c: seq<nat>, pc: PC): nat {
    var l := |c|;
    match pc
    case NewSlot => PostLeft(reps, l + 1) + 4
    case ReadTail(_) => PostLeft(reps, l + 1) + 3
    case WriteNext(tail, _) => PostLeft(reps, l + 1) + if tail == s.tail then 2 else 5
    case CasTail(tail, _) => PostLeft(reps, l + 1) + if tail == s.tail then 1 else 4
    case Post => PostLeft(reps, l)
    case CheckNext => TryLeft(reps, 0, l) + 5
    case ReadLock(j) => TryLeft(reps, 0, l) + if j < 2 then 4 - j else 2
    case CasLock => TryLeft(reps, 0, l) + 1
    case StartTry(i) => TryLeft(reps, i, l)
    case ScanNext(i, _, q) => TryLeft(reps, i + 1, l) + 4 * Depth(c, q) + 1
    case ScanRead(i, _, q) => TryLeft(reps, i + 1, l) + 4 * Depth(c, q)
    case Serve(i, _, q, _) => TryLeft(reps, i + 1, l) + 4 * Depth(c, q) - 1
    case Advance(i, _, q) => TryLeft(reps, i + 1, l) + 4 * Depth(c, q) - 2
    case Unlock => 2
    case WaitAns => TryLeft(reps, 0, l) + 8
    case WaitLock => TryLeft(reps, 0, l) + 7
    case Recheck => TryLeft(reps, 0, l) + 6
    case ReadAns => 1
  }

  /** With the rounds that the object may yet cost the combiner. */
  ghost function AllLeft<S>(k: Service<S>, mu: S -> nat, s: State<S>, c: seq<nat>, pc: PC): nat {
    Left(k.reps(|s.threads|), s, c, pc) + if pc.Unlock? || pc.ReadAns? then 0 else 3 * mu(s.obj)
  }

  // ---------------------------------------------------------------- one step

  /** No thread but `t` is between taking and releasing the combiner lock. */
  ghost predicate NoneElse<S>(s: State<S>, t: nat) {
    forall u :: 0 <= u < |s.threads| && u != t ==> !Combining(s.threads[u])
  }

  /** A step of thread `t`: it returns, or is nearer to returning. */
  ghost predicate Nearer<S>(k: Service<S>, mu: S -> nat, s: State<S>, c: seq<nat>, s': State<S>, c': seq<nat>, t: nat)
    requires t < |s.threads| == |s'.threads| && s.threads[t].In?
  {
    if s'.threads[t].Out? then
      exists a :: s'.history == s.history + [Ret(t, a)]
    else
      && s'.threads[t].In? && s'.threads == s.threads[t := s'.threads[t]] && s'.history == s.history
      && AllLeft(k, mu, s', c', s'.threads[t].pc) < AllLeft(k, mu, s, c, s.threads[t].pc)
  }

  lemma JoinNearer<S>(k: Service<S>, mu: S -> nat, s: State<S>, c: seq<nat>, t: nat)
    requires ListOk(s, c) && t < |s.threads| && s.threads[t].In? && Joining(s.threads[t])
    ensures Nearer(k, mu, s, c, Step(k, s, Choice(t, Remove)), if Links(s, t) then c + [t + 1] else c, t)
  {
    assert Listed(s.slots, c, t + 1, s.threads[t]);
  }

  lemma LockIsFree<S>(s: State<S>, t: nat)
    requires LockOk(s.lock, s.threads) && t < |s.threads| && NoneElse(s, t) && !Combining(s.threads[t])
    ensures !s.lock
  {
  }

  lemma WaitNearer<S>(k: Service<S>, mu: S -> nat, s: State<S>, c: seq<nat>, t: nat)
    requires ListOk(s, c) && t < |s.threads| && !Joining(s.threads[t]) && !Combining(s.threads[t]) && NoneElse(s, t)
    ensures Nearer(k, mu, s, c, Step(k, s, Choice(t, Remove)), c, t)
  {
    assert Listed(s.slots, c, t + 1, s.threads[t]);
    NextInChain(s.slots, s.tail, c, t + 1);
    LockIsFree(s, t);
  }

  /** A scan goes down the list one slot at a time. */
  lemma DepthNext(slots: seq<Slot>, tail: nat, c: seq<nat>, q: nat)
    requires Chain(slots, tail, c) && q in c
    ensures q < |slots| && (Depth(c, q) > 0 <==> q != 0) && (q != 0 <==> slots[q].next.Some?)
    ensures q != 0 ==> Depth(c, slots[q].next.value) == Depth(c, q) - 1
    ensures Depth(c, tail) == |c| - 1
  {
    var i :| 0 <= i < |c| && c[i] == q;
    DepthIs(slots, tail, c, i);
    DepthIs(slots, tail, c, |c| - 1);
    if i > 0 {
      assert slots[c[i]].next == Some(c[i - 1]);
      DepthIs(slots, tail, c, i - 1);
    }
  }

  lemma LookNearer<S>(k: Service<S>, mu: S -> nat, s: State<S>, c: seq<nat>, t: nat)
    requires ListOk(s, c) && t < |s.threads| && s.threads[t].In? && s.threads[t].pc.ScanNext?
    ensures Nearer(k, mu, s, c, Step(k, s, Choice(t, Remove)), c, t)
  {
    assert Listed(s.slots, c, t + 1, s.threads[t]);
    DepthNext(s.slots, s.tail, c, s.threads[t].pc.curr);
  }

  lemma ReadNearer<S>(k: Service<S>, mu: S -> nat, s: State<S>, c: seq<nat>, t: nat)
    requires ListOk(s, c) && t < |s.threads| && s.threads[t].In? && s.threads[t].pc.ScanRead?
    ensures Nearer(k, mu, s, c, Step(k, s, Choice(t, Remove)), c, t)
  {
    assert Listed(s.slots, c, t + 1, s.threads[t]);
    DepthNext(s.slots, s.tail, c, s.threads[t].pc.curr);
  }

  lemma AdvanceNearer<S>(k: Service<S>, mu: S -> nat, s: State<S>, c: seq<nat>, t: nat)
    requires ListOk(s, c) && t < |s.threads| && s.threads[t].In? && s.threads[t].pc.Advance?
    ensures Nearer(k, mu, s, c, Step(k, s, Choice(t, Remove)), c, t)
  {
    assert Listed(s.slots, c, t + 1, s.threads[t]);
    DepthNext(s.slots, s.tail, c, s.threads[t].pc.curr);
  }

  lemma ServeNearer<S(!new)>(k: Service<S>, mu: S -> nat, s: State<S>, c: seq<nat>, t: nat)
    requires ListOk(s, c) && t < |s.threads| && s.threads[t].In? && s.threads[t].pc.Serve? && Answering(k, mu)
    ensures Nearer(k, mu, s, c, Step(k, s, Choice(t, Remove)), c, t)
  {
    assert Listed(s.slots, c, t + 1, s.threads[t]);
    DepthNext(s.slots, s.tail, c, s.threads[t].pc.curr);
  }

  lemma PassNearer<S>(k: Service<S>, mu: S -> nat, s: State<S>, c: seq<nat>, t: nat)
    requires ListOk(s, c) && t < |s.threads| && s.threads[t].In?
    requires s.threads[t].pc.StartTry? || s.threads[t].pc.Unlock?
    ensures Nearer(k, mu, s, c, Step(k, s, Choice(t, Remove)), c, t)
  {
    assert c[0] in c && Listed(s.slots, c, t + 1, s.threads[t]);
    DepthNext(s.slots, s.tail, c, c[0]);
  }

  lemma ScanNearer<S(!new)>(k: Service<S>, mu: S -> nat, s: State<S>, c: seq<nat>, t: nat)
    requires ListOk(s, c) && t < |s.threads| && Combining(s.threads[t]) && Answering(k, mu)
    ensures Nearer(k, mu, s, c, Step(k, s, Choice(t, Remove)), c, t)
  {
    var pc := s.threads[t].pc;
    if pc.StartTry? || pc.Unlock? {
      PassNearer(k, mu, s, c, t);
    } else if pc.Serve? {
      ServeNearer(k, mu, s, c, t);
    } else if pc.Advance? {
      AdvanceNearer(k, mu, s, c, t);
    } else if pc.ScanRead? {
      ReadNearer(k, mu, s, c, t);
    } else {
      LookNearer(k, mu, s, c, t);
    }
  }

  lemma StepNearer<S(!new)>(k: Service<S>, mu: S -> nat, s: State<S>, c: seq<nat>, t: nat) returns (c': seq<nat>)
    requires ListOk(s, c) && t < |s.threads| && s.threads[t].In? && NoneElse(s, t) && Answering(k, mu)
    ensures var s' := Step(k, s, Choice(t, Remove)); ListOk(s', c') && Nearer(k, mu, s, c, s', c', t)
  {
    c' := StepListed(k, s, c, Choice(t, Remove));
    if Combining(s.threads[t]) {
      ScanNearer(k, mu, s, c, t);
    } else if Joining(s.threads[t]) {
      JoinNearer(k, mu, s, c, t);
    } else {
      WaitNearer(k, mu, s, c, t);
    }
  }

  // ---------------------------------------------------------------- returning

  /** Within `m` steps of its own, thread `t` returns, and it is the only one that does anything. */
  ghost predicate ReturnsWithin<S>(k: Service<S>, s: State<S>, t: nat, m: nat)
    requires t < |s.threads|
  {
    exists i, a :: 0 <= i <= m && Returned(s, Alone(k, s, t, i), t, a)
  }

  ghost predicate Returned<S>(s: State<S>, s': State<S>, t: nat, a: int)
    requires t < |s.threads|
  {
    t < |s'.threads| && s'.threads[t].Out? && s'.history == s.history + [Ret(t, a)]
  }

  lemma {:induction false} Returns<S(!new)>(k: Service<S>, mu: S -> nat, s: State<S>, c: seq<nat>, t: nat)
    requires ListOk(s, c) && t < |s.threads| && s.threads[t].In? && NoneElse(s, t) && Answering(k, mu)
    ensures ReturnsWithin(k, s, t, AllLeft(k, mu, s, c, s.threads[t].pc))
    decreases AllLeft(k, mu, s, c, s.threads[t].pc)
  {
    var s' := Step(k, s, Choice(t, Remove));
    var c' := StepNearer(k, mu, s, c, t);
    if s'.threads[t].Out? {
      var a :| s'.history == s.history + [Ret(t, a)];
      assert Alone(k, s, t, 1) == Alone(k, s', t, 0) == s';
      assert Returned(s, Alone(k, s, t, 1), t, a);
    } else {
      Returns(k, mu, s', c', t);
      var i, a :| 0 <= i <= AllLeft(k, mu, s', c', s'.threads[t].pc) && Returned(s', Alone(k, s', t, i), t, a);
      assert Alone(k, s, t, i + 1) == Alone(k, s', t, i);
      assert Returned(s, Alone(k, s, t, i + 1), t, a);
    }
  }

  // ---------------------------------------------------------------- in how many steps

  function Below(n: nat): (m: set<nat>)
    ensures |m| == n && forall i: nat :: i in m <==> i < n
  {
    if n == 0 then {} else Below(n - 1) + {n - 1}
  }

  lemma {:induction false} Distinct(c: seq<nat>, m: set<nat>)
    requires forall i, j :: 0 <= i < j < |c| ==> c[i] != c[j]
    requires forall i :: 0 <= i < |c| ==> c[i] in m
    ensures |c| <= |m|
  {
    if c != [] {
      var n := |c| - 1;
      assert forall i :: 0 <= i < n ==> c[..n][i] in m - {c[n]};
      Distinct(c[..n], m - {c[n]});
    }
  }

  lemma ListSize<S>(s: State<S>, c: seq<nat>)
    requires ListOk(s, c)
    ensures |c| <= |s.threads| + 1
  {
    Distinct(c, Below(|s.slots|));
  }

  lemma {:induction false} Scans(reps: nat, i: nat, l: nat, w: nat)
    requires i <= reps && 4 * l + 2 <= w
    ensures TryLeft(reps, i, l) <= (reps - i) * w + 3
    decreases reps - i
  {
    if i < reps {
      Scans(reps, i + 1, l, w);
      assert (reps - i) * w == (reps - i - 1) * w + w;
    }
  }

  lemma Times(a: nat, b: nat, w: nat)
    requires a <= b
    ensures a * w <= b * w
  {
  }

  lemma TryBound(reps: nat, i: nat, l: nat, m: nat)
    requires l <= m
    ensures TryLeft(reps, i, l) <= reps * (4 * m + 2) + 3
  {
    if i < reps {
      Scans(reps, i, l, 4 * m + 2);
      Times(reps - i, reps, 4 * m + 2);
    }
  }

  /** No more than this, with `n` threads: each scan sees `n + 1` slots, and one that has just joined. */
  function Most(n: nat, reps: nat): nat { (reps + 1) * (4 * n + 10) + 12 }

  lemma ScanBound<S>(reps: nat, s: State<S>, c: seq<nat>, pc: PC)
    requires ListOk(s, c) && (pc.ScanNext? || pc.ScanRead? || pc.Serve? || pc.Advance?)
    ensures Left(reps, s, c, pc) <= Most(|s.threads|, reps)
  {
    var n := |s.threads|;
    ListSize(s, c);
    TryBound(reps, pc.i + 1, |c|, n + 2);
    assert (reps + 1) * (4 * n + 10) == reps * (4 * n + 10) + 4 * n + 10;
  }

  lemma LeftBound<S>(reps: nat, s: State<S>, c: seq<nat>, pc: PC)
    requires ListOk(s, c)
    ensures Left(reps, s, c, pc) <= Most(|s.threads|, reps)
  {
    var n, l := |s.threads|, |c|;
    if pc.ScanNext? || pc.ScanRead? || pc.Serve? || pc.Advance? {
      ScanBound(reps, s, c, pc);
    } else {
      ListSize(s, c);
      TryBound(reps, if pc.StartTry? then pc.i else 0, l, n + 2);
      TryBound(reps, 0, l + 1, n + 2);
      assert (reps + 1) * (4 * n + 10) == reps * (4 * n + 10) + 4 * n + 10;
    }
  }

  /** In every reachable state, wherever the other threads are, as long as none of them holds the combiner lock: a
      thread that is inside an operation and runs by itself returns, in no more steps than one pass takes. */
  lemma ReturnsAlone<S(!new)>(k: Service<S>, mu: S -> nat, n: nat, sched: seq<Choice>, t: nat)
    requires Answering(k, mu)
    requires var s := Run(k, n, sched); t < |s.threads| && s.threads[t].In? && NoneElse(s, t)
    ensures var s := Run(k, n, sched); ReturnsWithin(k, s, t, Most(n, k.reps(n)) + 3 * mu(s.obj))
  {
    var s := Run(k, n, sched);
    var c := RunListed(k, n, sched);
    RunSize(k, n, sched);
    Returns(k, mu, s, c, t);
    LeftBound(k.reps(n), s, c, s.threads[t].pc);
    var i, a :| 0 <= i <= AllLeft(k, mu, s, c, s.threads[t].pc) && Returned(s, Alone(k, s, t, i), t, a);
  }

  lemma {:induction false} RunSize<S>(k: Service<S>, n: nat, sched: seq<Choice>)
    ensures |Run(k, n, sched).threads| == n
  {
    if sched != [] { RunSize(k, n, sched[..|sched| - 1]); }
  }

  /** The priority queue: every request is answered at once. */
  lemma HeapReturns(n: nat, sched: seq<Choice>, t: nat)
    requires var s := Run(HEAP, n, sched); t < |s.threads| && s.threads[t].In? && NoneElse(s, t)
    ensures ReturnsWithin(HEAP, Run(HEAP, n, sched), t, Most(n, n))
  {
    var mu := (o: multiset<int>) => 0;
    assert Answering(HEAP, mu);
    ReturnsAlone(HEAP, mu, n, sched, t);
  }

  lemma MostGrows(n: nat, r: nat, r': nat)
    requires r <= r'
    ensures Most(n, r) <= Most(n, r')
  {
    Times(r + 1, r' + 1, 4 * n + 10);
  }

  lemma Sooner<S>(k: Service<S>, s: State<S>, t: nat, m: nat, m': nat)
    requires t < |s.threads| && ReturnsWithin(k, s, t, m) && m <= m'
    ensures ReturnsWithin(k, s, t, m')
  {
    var i, a :| 0 <= i <= m && Returned(s, Alone(k, s, t, i), t, a);
  }

  /** The queue: at most two scans, and three steps more for each chunk that a removal finds used up. */
  lemma QueueReturns(n: nat, sched: seq<Choice>, t: nat)
    requires var s := Run(QUEUE, n, sched); t < |s.threads| && s.threads[t].In? && NoneElse(s, t)
    ensures var s := Run(QUEUE, n, sched); ReturnsWithin(QUEUE, s, t, Most(n, 2) + 3 * |s.obj.parts|)
  {
    var s, mu, r := Run(QUEUE, n, sched), (o: Pass) => |o.parts|, if n < 2 then n else 2;
    assert Answering(QUEUE, mu);
    ReturnsAlone(QUEUE, mu, n, sched, t);
    MostGrows(n, r, 2);
    Sooner(QUEUE, s, t, Most(n, r) + 3 * |s.obj.parts|, Most(n, 2) + 3 * |s.obj.parts|);
  }

  // ---------------------------------------------------------------- the condition is needed

  /** A thread that waits for its answer while another thread holds the lock. */
  predicate Waiting<S>(s: State<S>, t: nat) {
    && s.lock && t < |s.threads| && t + 1 < |s.slots| && s.threads[t].In?
    && (s.threads[t].pc.WaitAns? || s.threads[t].pc.WaitLock?)
    && !Answered(s.threads[t].op, s.slots[t + 1].reqAns)
  }

  /** By itself such a thread never returns: flat combining blocks on a combiner that has stopped. */
  lemma {:induction false} WaitsOn<S>(k: Service<S>, s: State<S>, t: nat, m: nat)
    requires Waiting(s, t)
    ensures Waiting(Alone(k, s, t, m), t)
    decreases m
  {
    if m > 0 { WaitsOn(k, Step(k, s, Choice(t, Remove)), t, m - 1); }
  }
}
