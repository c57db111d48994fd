/** Every request posted to a flat-combining structure is applied exactly once before its operation returns. */
module FlatCombiningProofs {
  import opened Linearizability
  import opened Options
  import opened Slots
  import opened FlatCombining

  // ---------------------------------------------------------------- the lock and the list, whatever the values

  /** Where a thread with slot `p` is on the list, and what it follows there. */
  ghost predicate Listed(slots: seq<Slot>, c: seq<nat>, p: nat, th: Thread)
    requires p < |slots|
  {
    match th
    case Out(has) => has <==> p in c
    case In(op, pc) =>
      match pc
      case NewSlot => p !in c
      case ReadTail(posted) => !posted && p !in c
      case WriteNext(_, posted) => !posted && p !in c
      case CasTail(tail, posted) => !posted && p !in c && slots[p].next == Some(tail)
      case ScanNext(_, _, curr) => p in c && curr in c
      case ScanRead(_, _, curr) => p in c && curr in c && curr != 0
      case Serve(_, _, curr, _) => p in c && curr in c && curr != 0
      case Advance(_, _, curr) => p in c && curr in c && curr != 0
      case _ => p in c
  }

  ghost predicate ListOk<S>(s: State<S>, c: seq<nat>) {
    && !s.fault && |s.slots| == |s.threads| + 1 && Chain(s.slots, s.tail, c)
    && (forall t :: 0 <= t < |s.threads| ==> Listed(s.slots, c, t + 1, s.threads[t]))
    && LockOk(s.lock, s.threads)
  }

  ghost predicate LinksKept(slots: seq<Slot>, slots': seq<Slot>, t: nat, c: seq<nat>) {
    |slots'| == |slots| && forall q :: 0 <= q < |slots| && (q != t + 1 || q in c) ==> slots'[q].next == slots[q].next
  }

  lemma LinksChain(slots: seq<Slot>, slots': seq<Slot>, tail: nat, t: nat, c: seq<nat>)
    requires Chain(slots, tail, c) && LinksKept(slots, slots', t, c)
    ensures Chain(slots', tail, c)
  {
    assert c[0] in c;
    forall i | 0 < i < |c| ensures slots'[c[i]].next == Some(c[i - 1]) { assert c[i] in c; }
  }

  /** A step that links nothing. */
  lemma ListStep<S>(s: State<S>, c: seq<nat>, s': State<S>, t: nat, th: Thread)
    requires ListOk(s, c) && t < |s.threads| && s'.threads == s.threads[t := th] && !s'.fault && s'.tail == s.tail
    requires LinksKept(s.slots, s'.slots, t, c) && Listed(s'.slots, c, t + 1, th) && LockOk(s'.lock, s'.threads)
    ensures ListOk(s', c)
  {
    LinksChain(s.slots, s'.slots, s.tail, t, c);
    forall u | 0 <= u < |s'.threads| ensures Listed(s'.slots, c, u + 1, s'.threads[u]) {
      if u != t { assert Listed(s.slots, c, u + 1, s.threads[u]); }
    }
  }

  lemma ListGrows<S>(s: State<S>, c: seq<nat>, s': State<S>, t: nat, op: Op)
    requires ListOk(s, c) && t < |s.threads| && s.threads[t] == In(op, CasTail(s.tail, false))
    requires s' == s.(tail := t + 1, threads := s.threads[t := In(op, Post)])
    ensures ListOk(s', c + [t + 1])
  {
    var c' := c + [t + 1];
    assert Listed(s.slots, c, t + 1, s.threads[t]);
    LockKept(s.lock, s.threads, t, s'.threads[t]);
    assert c'[|c|] == t + 1;
    forall u | 0 <= u < |s'.threads| ensures Listed(s'.slots, c', u + 1, s'.threads[u]) {
      if u != t { assert Listed(s.slots, c, u + 1, s.threads[u]); }
    }
  }

  /** A combiner stops combining by releasing the lock. */
  lemma LockLeft<S>(k: Service<S>, s: State<S>, ch: Choice)
    requires ch.t < |s.threads| && Combining(s.threads[ch.t])
    ensures Step(k, s, ch).lock == (Combining(Step(k, s, ch).threads[ch.t]) && s.lock)
  {
  }

  /** A thread that has not posted its request yet. */
  predicate Joining(th: Thread) {
    th.Out? || th.pc.NewSlot? || th.pc.ReadTail? || th.pc.WriteNext? || th.pc.CasTail? || th.pc.Post?
  }

  lemma LockUnseen<S>(k: Service<S>, s: State<S>, ch: Choice)
    requires ch.t < |s.threads| && Joining(s.threads[ch.t])
    ensures Step(k, s, ch).lock == s.lock && !Combining(Step(k, s, ch).threads[ch.t])
  {
  }

  /** Another thread starts to combine by taking the lock, which was free. */
  lemma LockEntered<S>(k: Service<S>, s: State<S>, ch: Choice)
    requires ch.t < |s.threads| && !Joining(s.threads[ch.t]) && !Combining(s.threads[ch.t])
    ensures Step(k, s, ch).lock == (Combining(Step(k, s, ch).threads[ch.t]) || s.lock)
    ensures Combining(Step(k, s, ch).threads[ch.t]) ==> !s.lock
  {
  }

  lemma LockStep(lock: bool, threads: seq<Thread>, t: nat, th: Thread, lock': bool)
    requires LockOk(lock, threads) && t < |threads|
    requires lock' == if Combining(th) == Combining(threads[t]) then lock else Combining(th)
    requires Combining(th) && !Combining(threads[t]) ==> !lock
    ensures LockOk(lock', threads[t := th])
  {
    if Combining(th) == Combining(threads[t]) {
      LockKept(lock, threads, t, th);
    } else if Combining(th) {
      LockTaken(threads, t, th);
    } else {
      LockFreed(lock, threads, t, th);
    }
  }

  lemma ListScan<S>(k: Service<S>, s: State<S>, c: seq<nat>, ch: Choice)
    requires ListOk(s, c) && ch.t < |s.threads| && Combining(s.threads[ch.t])
    ensures ListOk(Step(k, s, ch), c)
  {
    var t, s', pc := ch.t, Step(k, s, ch), s.threads[ch.t].pc;
    assert Listed(s.slots, c, t + 1, s.threads[t]);
    LockLeft(k, s, ch);
    LockStep(s.lock, s.threads, t, s'.threads[t], s'.lock);
    assert c[|c| - 1] in c;
    if pc.ScanNext? || pc.ScanRead? || pc.Serve? || pc.Advance? { NextInChain(s.slots, s.tail, c, pc.curr); }
    ListStep(s, c, s', t, s'.threads[t]);
  }

  lemma ListJoin<S>(k: Service<S>, s: State<S>, c: seq<nat>, ch: Choice)
    requires ListOk(s, c) && ch.t < |s.threads| && Joining(s.threads[ch.t])
    requires s.threads[ch.t].In? && s.threads[ch.t].pc.CasTail? ==> s.threads[ch.t].pc.tail != s.tail
    ensures ListOk(Step(k, s, ch), c)
  {
    var t, s' := ch.t, Step(k, s, ch);
    assert Listed(s.slots, c, t + 1, s.threads[t]);
    LockUnseen(k, s, ch);
    LockStep(s.lock, s.threads, t, s'.threads[t], s'.lock);
    ListStep(s, c, s', t, s'.threads[t]);
  }

  lemma ListWait<S>(k: Service<S>, s: State<S>, c: seq<nat>, ch: Choice)
    requires ListOk(s, c) && ch.t < |s.threads| && !Joining(s.threads[ch.t]) && !Combining(s.threads[ch.t])
    ensures ListOk(Step(k, s, ch), c)
  {
    var t, s' := ch.t, Step(k, s, ch);
    assert Listed(s.slots, c, t + 1, s.threads[t]);
    NextInChain(s.slots, s.tail, c, t + 1);
    LockEntered(k, s, ch);
    LockStep(s.lock, s.threads, t, s'.threads[t], s'.lock);
    ListStep(s, c, s', t, s'.threads[t]);
  }

  lemma {:induction false} RunListed<S>(k: Service<S>, n: nat, sched: seq<Choice>) returns (c: seq<nat>)
    ensures ListOk(Run(k, n, sched), c)
  {
    if sched == [] {
      c := [0];
    } else {
      var s, ch := Run(k, n, sched[..|sched| - 1]), sched[|sched| - 1];
      c := RunListed(k, n, sched[..|sched| - 1]);
      c := StepListed(k, s, c, ch);
    }
  }

  /** The step that puts a slot at the head of the list. */
  predicate Links<S>(s: State<S>, t: nat) {
    t < |s.threads| && s.threads[t].In? && s.threads[t].pc.CasTail? && s.threads[t].pc.tail == s.tail
  }

  lemma StepListed<S>(k: Service<S>, s: State<S>, c: seq<nat>, ch: Choice) returns (c': seq<nat>)
    requires ListOk(s, c)
    ensures ListOk(Step(k, s, ch), c') && c' == if Links(s, ch.t) then c + [ch.t + 1] else c
  {
    c' := c;
    var t := ch.t;
    if t < |s.threads| {
      if Combining(s.threads[t]) {
        ListScan(k, s, c, ch);
      } else if Links(s, t) {
        assert Listed(s.slots, c, t + 1, s.threads[t]);
        c' := c + [t + 1];
        ListGrows(s, c, Step(k, s, ch), t, s.threads[t].op);
      } else if Joining(s.threads[t]) {
        ListJoin(k, s, c, ch);
      } else {
        ListWait(k, s, c, ch);
      }
    }
  }

  /** Whatever values are added: at most one thread is between taking and releasing the combiner lock, and then the
      lock is held; the slots form one list, and no pointer off it is ever followed. */
  lemma OneCombiner<S>(k: Service<S>, n: nat, sched: seq<Choice>)
    ensures var s := Run(k, n, sched); !s.fault && LockOk(s.lock, s.threads) && exists c :: Chain(s.slots, s.tail, c)
  {
    var c := RunListed(k, n, sched);
  }

  // ---------------------------------------------------------------- one kind of step at a time

  /** Steps that write at most the thread's own slot. */
  lemma OwnInv<S>(s: State<S>, c: seq<nat>, s': State<S>, t: nat, th: Thread)
    requires Inv(s, c) && t < |s.threads| && s'.threads == s.threads[t := th]
    requires !s'.fault && s'.tail == s.tail && OwnSlotOnly(s.slots, s'.slots, t)
    requires t + 1 in c ==> s'.slots[t + 1].next == s.slots[t + 1].next
    requires ThreadOk(s'.slots, c, t + 1, th) && LockOk(s'.lock, s'.threads)
    ensures Inv(s', c)
  {
    forall u | 0 <= u < |s'.threads| ensures ThreadOk(s'.slots, c, u + 1, s'.threads[u]) {
      if u != t {
        assert ThreadOk(s.slots, c, u + 1, s.threads[u]);
        ThreadKept(s.slots, c, s'.slots, t, u, s.threads[u]);
      }
    }
  }

  /** While the machine goes from `s` to `s'`, the atomic object `f` goes from contents `v` to `v'` by the actions
      `xs`. */
  ghost predicate Matched<S, V>(f: (V, Op) -> (V, int), v: V, s: State<S>, c: seq<nat>, v': V, s': State<S>,
                                c': seq<nat>, xs: seq<Action<Op, int>>) {
    && Inv(s, c) && Inv(s', c')
    && Exec(f, Abs(v, s), xs) == Some(Abs(v', s'))
    && s'.history == s.history + Visible(xs)
  }

  lemma StatusesUpdate(slots: seq<Slot>, threads: seq<Thread>, slots': seq<Slot>, t: nat, th: Thread)
    requires |slots| == |threads| + 1 && t < |threads| && OwnSlotOnly(slots, slots', t)
    ensures Statuses(slots', threads[t := th]) == Statuses(slots, threads)[t := StatusOf(th, slots'[t + 1].reqAns)]
  {
  }

  lemma MatchNone<S, V>(f: (V, Op) -> (V, int), v: V, s: State<S>, c: seq<nat>, s': State<S>, c': seq<nat>, t: nat,
                        th: Thread)
    requires Inv(s, c) && Inv(s', c') && t < |s.threads| && s'.threads == s.threads[t := th]
    requires OwnSlotOnly(s.slots, s'.slots, t) && s'.history == s.history
    requires StatusOf(th, s'.slots[t + 1].reqAns) == StatusOf(s.threads[t], s.slots[t + 1].reqAns)
    ensures Matched(f, v, s, c, v, s', c', [])
  {
    StatusesUpdate(s.slots, s.threads, s'.slots, t, th);
    assert Statuses(s.slots, s.threads)[t := Statuses(s.slots, s.threads)[t]] == Statuses(s.slots, s.threads);
  }

  /** A step of thread `t` that keeps to its own slot and does not change its status. */
  lemma QuietMatch<S, V>(f: (V, Op) -> (V, int), v: V, s: State<S>, c: seq<nat>, s': State<S>, t: nat, op: Op, pc: PC,
                         pc': PC)
    requires Inv(s, c) && t < |s.threads| && s.threads[t] == In(op, pc) && s'.threads == s.threads[t := In(op, pc')]
    requires s'.slots == s.slots && s'.tail == s.tail && s'.history == s.history && !s'.fault
    requires Posted(pc') == Posted(pc) && PcOk(s.slots, c, t + 1, op, pc') && LockOk(s'.lock, s'.threads)
    ensures Matched(f, v, s, c, v, s', c, [])
  {
    assert ThreadOk(s.slots, c, t + 1, s.threads[t]);
    OwnInv(s, c, s', t, In(op, pc'));
    MatchNone(f, v, s, c, s', c, t, In(op, pc'));
  }

  lemma EndMatch<S, V>(f: (V, Op) -> (V, int), v: V, s: State<S>, c: seq<nat>, s': State<S>, t: nat, th: Thread,
                       x: Action<Op, int>)
    requires Inv(s, c) && t < |s.threads| && s'.threads == s.threads[t := th] && x.t == t && !x.Lin?
    requires s'.slots == s.slots && s'.tail == s.tail && !s'.fault && s'.history == s.history + [x]
    requires ThreadOk(s.slots, c, t + 1, th) && LockOk(s'.lock, s'.threads)
    requires Act(f, Abs(v, s), x) == Some(Atomic(v, Abs(v, s).status[t := StatusOf(th, s.slots[t + 1].reqAns)]))
    ensures Matched(f, v, s, c, v, s', c, [x])
  {
    OwnInv(s, c, s', t, th);
    StatusesUpdate(s.slots, s.threads, s'.slots, t, th);
    ExecOne(f, Abs(v, s), x);
  }

  lemma CallMatch<S, V>(k: Service<S>, f: (V, Op) -> (V, int), v: V, s: State<S>, c: seq<nat>, ch: Choice)
    returns (xs: seq<Action<Op, int>>)
    requires Inv(s, c) && ch.t < |s.threads| && s.threads[ch.t].Out? && GoodOp(ch.op)
    ensures Matched(f, v, s, c, v, Step(k, s, ch), c, xs)
  {
    var t, s' := ch.t, Step(k, s, ch);
    assert ThreadOk(s.slots, c, t + 1, s.threads[t]);
    assert Abs(v, s).status[t] == Idle;
    LockKept(s.lock, s.threads, t, s'.threads[t]);
    xs := [Call(t, ch.op)];
    EndMatch(f, v, s, c, s', t, s'.threads[t], xs[0]);
  }

  /** An operation that was served returns what its slot says. */
  lemma ReturnMatch<S, V>(f: (V, Op) -> (V, int), v: V, s: State<S>, c: seq<nat>, s': State<S>, t: nat, op: Op, pc: PC)
    requires Inv(s, c) && t < |s.threads| && s.threads[t] == In(op, pc) && Posted(pc)
    requires t + 1 in c && Served(op, s.slots[t + 1].reqAns)
    requires s'.threads == s.threads[t := Out(true)] && LockOk(s'.lock, s'.threads)
    requires s'.slots == s.slots && s'.tail == s.tail && !s'.fault
    requires s'.history == s.history + [Ret(t, -s.slots[t + 1].reqAns)]
    ensures Matched(f, v, s, c, v, s', c, [Ret(t, -s.slots[t + 1].reqAns)])
  {
    var x := s.slots[t + 1].reqAns;
    assert ThreadOk(s.slots, c, t + 1, s.threads[t]);
    assert Abs(v, s).status[t] == Done(op, -x);
    EndMatch(f, v, s, c, s', t, Out(true), Ret(t, -x));
  }

  /** The steps that may return. */
  lemma LeaveMatch<S, V>(k: Service<S>, f: (V, Op) -> (V, int), v: V, s: State<S>, c: seq<nat>, ch: Choice)
    returns (xs: seq<Action<Op, int>>)
    requires Inv(s, c) && ch.t < |s.threads| && s.threads[ch.t].In? && Step(k, s, ch).threads[ch.t].Out?
    ensures Matched(f, v, s, c, v, Step(k, s, ch), c, xs)
  {
    var t, s' := ch.t, Step(k, s, ch);
    var op, pc := s.threads[t].op, s.threads[t].pc;
    assert ThreadOk(s.slots, c, t + 1, s.threads[t]);
    assert pc.Unlock? || pc.Recheck? || pc.ReadAns?;
    if pc.Unlock? {
      LockFreed(s.lock, s.threads, t, s'.threads[t]);
    } else {
      LockKept(s.lock, s.threads, t, s'.threads[t]);
    }
    xs := [Ret(t, -s.slots[t + 1].reqAns)];
    ReturnMatch(f, v, s, c, s', t, op, pc);
  }

  /** `get_new_slot` before the compare-and-set, and posting the request. */
  lemma OwnSlotMatch<S, V>(k: Service<S>, f: (V, Op) -> (V, int), v: V, s: State<S>, c: seq<nat>, ch: Choice)
    requires Inv(s, c) && ch.t < |s.threads| && s.threads[ch.t].In?
    requires s.threads[ch.t].pc.NewSlot? || s.threads[ch.t].pc.WriteNext? || s.threads[ch.t].pc.Post?
    ensures Matched(f, v, s, c, v, Step(k, s, ch), c, [])
  {
    var t, s' := ch.t, Step(k, s, ch);
    assert ThreadOk(s.slots, c, t + 1, s.threads[t]);
    LockKept(s.lock, s.threads, t, s'.threads[t]);
    OwnInv(s, c, s', t, s'.threads[t]);
    MatchNone(f, v, s, c, s', c, t, s'.threads[t]);
  }

  lemma Linked<S, V>(f: (V, Op) -> (V, int), v: V, s: State<S>, c: seq<nat>, s': State<S>, t: nat, op: Op)
    requires Inv(s, c) && t < |s.threads| && s.threads[t] == In(op, CasTail(s.tail, false))
    requires s' == s.(tail := t + 1, threads := s.threads[t := In(op, Post)])
    ensures Matched(f, v, s, c, v, s', c + [t + 1], [])
  {
    var c' := c + [t + 1];
    LinkedInv(s, c, s', t, op);
    MatchNone(f, v, s, c, s', c', t, s'.threads[t]);
  }

  lemma LinkedInv<S>(s: State<S>, c: seq<nat>, s': State<S>, t: nat, op: Op)
    requires Inv(s, c) && t < |s.threads| && s.threads[t] == In(op, CasTail(s.tail, false))
    requires s' == s.(tail := t + 1, threads := s.threads[t := In(op, Post)])
    ensures Inv(s', c + [t + 1])
  {
    var c' := c + [t + 1];
    assert ThreadOk(s.slots, c, t + 1, s.threads[t]);
    LockKept(s.lock, s.threads, t, s'.threads[t]);
    assert c'[|c|] == t + 1;
    forall u | 0 <= u < |s'.threads| ensures ThreadOk(s'.slots, c', u + 1, s'.threads[u]) {
      if u != t {
        assert ThreadOk(s.slots, c, u + 1, s.threads[u]);
        ThreadGrows(s.slots, c, t + 1, u, s.threads[u]);
      }
    }
  }

  lemma LinkMatch<S, V>(k: Service<S>, f: (V, Op) -> (V, int), v: V, s: State<S>, c: seq<nat>, ch: Choice)
    returns (c': seq<nat>)
    requires Inv(s, c) && ch.t < |s.threads| && s.threads[ch.t].In? && s.threads[ch.t].pc.CasTail?
    ensures Matched(f, v, s, c, v, Step(k, s, ch), c', [])
  {
    var t, s' := ch.t, Step(k, s, ch);
    var op, pc := s.threads[t].op, s.threads[t].pc;
    assert ThreadOk(s.slots, c, t + 1, s.threads[t]);
    if s.tail == pc.tail {
      c' := c + [t + 1];
      Linked(f, v, s, c, s', t, op);
    } else {
      c' := c;
      LockKept(s.lock, s.threads, t, s'.threads[t]);
      QuietMatch(f, v, s, c, s', t, op, pc, s'.threads[t].pc);
    }
  }

  /** Waiting, and taking the lock. */
  lemma WaitMatch<S, V>(k: Service<S>, f: (V, Op) -> (V, int), v: V, s: State<S>, c: seq<nat>, ch: Choice)
    requires Inv(s, c) && ch.t < |s.threads| && s.threads[ch.t].In? && Step(k, s, ch).threads[ch.t].In?
    requires var pc := s.threads[ch.t].pc; pc.ReadTail? || pc.CheckNext? || pc.WaitAns? || pc.WaitLock? || pc.Recheck?
    ensures Matched(f, v, s, c, v, Step(k, s, ch), c, [])
  {
    var t, s' := ch.t, Step(k, s, ch);
    var op, pc := s.threads[t].op, s.threads[t].pc;
    assert ThreadOk(s.slots, c, t + 1, s.threads[t]);
    if pc.CheckNext? { NextInChain(s.slots, s.tail, c, t + 1); }
    LockKept(s.lock, s.threads, t, s'.threads[t]);
    QuietMatch(f, v, s, c, s', t, op, pc, s'.threads[t].pc);
  }

  lemma LockMatch<S, V>(k: Service<S>, f: (V, Op) -> (V, int), v: V, s: State<S>, c: seq<nat>, ch: Choice)
    requires Inv(s, c) && ch.t < |s.threads| && s.threads[ch.t].In? && Step(k, s, ch).threads[ch.t].In?
    requires s.threads[ch.t].pc.ReadLock? || s.threads[ch.t].pc.CasLock? || s.threads[ch.t].pc.Unlock?
    ensures Matched(f, v, s, c, v, Step(k, s, ch), c, [])
  {
    var t, s' := ch.t, Step(k, s, ch);
    var op, pc := s.threads[t].op, s.threads[t].pc;
    assert ThreadOk(s.slots, c, t + 1, s.threads[t]);
    if pc.CasLock? && !s.lock {
      LockTaken(s.threads, t, s'.threads[t]);
    } else if pc.Unlock? {
      LockFreed(s.lock, s.threads, t, s'.threads[t]);
    } else {
      LockKept(s.lock, s.threads, t, s'.threads[t]);
    }
    QuietMatch(f, v, s, c, s', t, op, pc, s'.threads[t].pc);
  }

  /** A first scan starts with the combiner's own request ahead of it. */
  lemma StartMatch<S, V>(k: Service<S>, f: (V, Op) -> (V, int), v: V, s: State<S>, c: seq<nat>, ch: Choice)
    requires Inv(s, c) && k.reps(|s.threads|) > 0
    requires ch.t < |s.threads| && s.threads[ch.t].In? && s.threads[ch.t].pc.StartTry?
    ensures Matched(f, v, s, c, v, Step(k, s, ch), c, [])
  {
    var t, s' := ch.t, Step(k, s, ch);
    assert ThreadOk(s.slots, c, t + 1, s.threads[t]);
    AheadSelf(c, t + 1);
    LockKept(s.lock, s.threads, t, s'.threads[t]);
    QuietMatch(f, v, s, c, s', t, s.threads[t].op, s.threads[t].pc, s'.threads[t].pc);
  }

  /** It does not end before that request is served. */
  lemma LookOk(slots: seq<Slot>, tail: nat, c: seq<nat>, p: nat, op: Op, pc: PC, pc': PC, last: bool)
    requires Chain(slots, tail, c) && 0 < p < |slots| && pc.ScanNext? && PcOk(slots, c, p, op, pc)
    requires last == (pc.curr < |slots| && slots[pc.curr].next.None?)
    requires if last then pc' == Unlock || pc' == StartTry(pc.i + 1) else pc' == ScanRead(pc.i, pc.changes, pc.curr)
    ensures PcOk(slots, c, p, op, pc')
  {
    NextInChain(slots, tail, c, pc.curr);
    AheadEnd(slots, tail, c, p);
  }

  lemma LookMatch<S, V>(k: Service<S>, f: (V, Op) -> (V, int), v: V, s: State<S>, c: seq<nat>, ch: Choice)
    requires Inv(s, c) && ch.t < |s.threads| && s.threads[ch.t].In? && s.threads[ch.t].pc.ScanNext?
    ensures Matched(f, v, s, c, v, Step(k, s, ch), c, [])
  {
    var t, s' := ch.t, Step(k, s, ch);
    var op, pc := s.threads[t].op, s.threads[t].pc;
    assert ThreadOk(s.slots, c, t + 1, s.threads[t]);
    NextInChain(s.slots, s.tail, c, pc.curr);
    LookOk(s.slots, s.tail, c, t + 1, op, pc, s'.threads[t].pc, s.slots[pc.curr].next.None?);
    LockKept(s.lock, s.threads, t, s'.threads[t]);
    QuietMatch(f, v, s, c, s', t, op, pc, s'.threads[t].pc);
  }

  lemma ReadMatch<S, V>(k: Service<S>, f: (V, Op) -> (V, int), v: V, s: State<S>, c: seq<nat>, ch: Choice)
    requires Inv(s, c) && ch.t < |s.threads| && s.threads[ch.t].In? && s.threads[ch.t].pc.ScanRead?
    ensures Matched(f, v, s, c, v, Step(k, s, ch), c, [])
  {
    var t, s' := ch.t, Step(k, s, ch);
    var op, pc := s.threads[t].op, s.threads[t].pc;
    assert ThreadOk(s.slots, c, t + 1, s.threads[t]);
    NextInChain(s.slots, s.tail, c, pc.curr);
    LockKept(s.lock, s.threads, t, s'.threads[t]);
    QuietMatch(f, v, s, c, s', t, op, pc, s'.threads[t].pc);
  }

  /** It passes over no slot with an unserved request of the combiner. */
  lemma AdvanceMatch<S, V>(k: Service<S>, f: (V, Op) -> (V, int), v: V, s: State<S>, c: seq<nat>, ch: Choice)
    requires Inv(s, c) && ch.t < |s.threads| && s.threads[ch.t].In? && s.threads[ch.t].pc.Advance?
    ensures Matched(f, v, s, c, v, Step(k, s, ch), c, [])
  {
    var t, s' := ch.t, Step(k, s, ch);
    var op, pc := s.threads[t].op, s.threads[t].pc;
    assert ThreadOk(s.slots, c, t + 1, s.threads[t]);
    NextInChain(s.slots, s.tail, c, pc.curr);
    if !Served(op, s.slots[t + 1].reqAns) {
      AheadNext(s.slots, s.tail, c, t + 1, pc.curr);
    }
    LockKept(s.lock, s.threads, t, s'.threads[t]);
    QuietMatch(f, v, s, c, s', t, op, pc, s'.threads[t].pc);
  }

  // ---------------------------------------------------------------- serving a request

  /** The request in a slot is its owner's, and waits there. */
  lemma RequestOwned<S>(s: State<S>, c: seq<nat>, q: nat)
    requires Inv(s, c) && 0 < q < |s.slots| && IsRequest(s.slots[q].reqAns)
    ensures var th := s.threads[q - 1];
      && th.In? && Posted(th.pc) && q in c && GoodOp(th.op) && !th.pc.Unlock? && !th.pc.ReadAns?
      && s.slots[q].reqAns == RequestOf(th.op) && OpAt(s.slots[q].reqAns) == th.op
  {
    assert ThreadOk(s.slots, c, q - 1 + 1, s.threads[q - 1]);
  }

  lemma ServedThread(slots: seq<Slot>, c: seq<nat>, q: nat, y: int, u: nat, th: Thread)
    requires (forall i :: 0 <= i < |c| ==> c[i] < |slots|) && 0 < q < |slots| && u + 1 < |slots|
    requires ThreadOk(slots, c, u + 1, th) && !Combining(th)
    requires u + 1 == q ==> th.In? && IsRequest(slots[q].reqAns) && Served(th.op, y)
    ensures ThreadOk(slots[q := slots[q].(reqAns := y)], c, u + 1, th)
  {
  }

  lemma ServeChain(slots: seq<Slot>, tail: nat, c: seq<nat>, q: nat, y: int)
    requires Chain(slots, tail, c) && q < |slots|
    ensures Chain(slots[q := slots[q].(reqAns := y)], tail, c)
  {
  }

  lemma ServeInv<S>(s: State<S>, c: seq<nat>, s': State<S>, t: nat, i: nat, n: nat, q: nat, y: int)
    requires Inv(s, c) && t < |s.threads| && s.threads[t].In? && 0 < q < |s.slots|
    requires s.threads[t].pc == Serve(i, n, q, s.slots[q].reqAns) && IsRequest(s.slots[q].reqAns)
    requires s.threads[q - 1].In? && Served(s.threads[q - 1].op, y)
    requires s'.slots == s.slots[q := s.slots[q].(reqAns := y)]
    requires s'.threads == s.threads[t := In(s.threads[t].op, Advance(i, n, q))]
    requires s'.tail == s.tail && s'.lock == s.lock && !s'.fault
    ensures Inv(s', c)
  {
    ServeChain(s.slots, s.tail, c, q, y);
    LockKept(s.lock, s.threads, t, s'.threads[t]);
    forall u | 0 <= u < |s'.threads| ensures ThreadOk(s'.slots, c, u + 1, s'.threads[u]) {
      assert ThreadOk(s.slots, c, u + 1, s.threads[u]);
      if u != t {
        ServedThread(s.slots, c, q, y, u, s.threads[u]);
      }
    }
  }

  lemma ServeStatuses(slots: seq<Slot>, threads: seq<Thread>, t: nat, th: Thread, q: nat, y: int)
    requires |slots| == |threads| + 1 && t < |threads| && threads[t].In? && th.In? && th.op == threads[t].op
    requires Posted(th.pc) && Posted(threads[t].pc) && 0 < q < |slots| && threads[q - 1].In?
    requires Posted(threads[q - 1].pc)
    requires y != RequestOf(threads[q - 1].op)
    ensures Statuses(slots[q := slots[q].(reqAns := y)], threads[t := th])
      == Statuses(slots, threads)[q - 1 := Done(threads[q - 1].op, -y)]
  {
  }

  lemma ServeExec<S, V>(f: (V, Op) -> (V, int), v: V, v': V, s: State<S>, s': State<S>, t: nat, q: nat, op: Op, y: int)
    requires |s.slots| == |s.threads| + 1 && t < |s.threads| && s.threads[t].In? && Posted(s.threads[t].pc)
    requires 0 < q < |s.slots| && s.threads[q - 1].In? && Posted(s.threads[q - 1].pc) && s.threads[q - 1].op == op
    requires s.slots[q].reqAns == RequestOf(op) && y != RequestOf(op) && f(v, op) == (v', -y)
    requires s'.slots == s.slots[q := s.slots[q].(reqAns := y)] && |s'.threads| == |s.threads|
    requires s'.threads == s.threads[t := s'.threads[t]] && s'.threads[t].In? && s'.threads[t].op == s.threads[t].op
    requires Posted(s'.threads[t].pc)
    ensures Exec(f, Abs(v, s), [Lin(q - 1)]) == Some(Abs(v', s'))
  {
    ServeStatuses(s.slots, s.threads, t, s'.threads[t], q, y);
    assert Abs(v, s).status[q - 1] == Pending(op);
    ExecOne(f, Abs(v, s), Lin(q - 1));
  }

  /** The request that a step serves. */
  function Asked<S>(s: State<S>, ch: Choice): Option<int> {
    if ch.t < |s.threads| && s.threads[ch.t].In? && s.threads[ch.t].pc.Serve? then Some(s.threads[ch.t].pc.value)
    else None
  }

  /** What a step does to the combined object is what the atomic object `f` does from contents `v` to `v'`. */
  ghost predicate ServesAs<S, V>(k: Service<S>, f: (V, Op) -> (V, int), v: V, v': V, s: State<S>, ch: Choice) {
    match Asked(s, ch)
    case None => v' == v
    case Some(x) =>
      var answer := k.serve(s.obj, x).1;
      if answer.None? then v' == v else f(v, OpAt(x)) == (v', answer.value) && Served(OpAt(x), -answer.value)
  }

  /** Serving is where the owner's operation takes effect, whichever thread combines. */
  lemma ServeMatch<S, V>(k: Service<S>, f: (V, Op) -> (V, int), v: V, v': V, s: State<S>, c: seq<nat>, ch: Choice)
    returns (xs: seq<Action<Op, int>>)
    requires Inv(s, c) && ch.t < |s.threads| && s.threads[ch.t].In? && s.threads[ch.t].pc.Serve?
    requires ServesAs(k, f, v, v', s, ch)
    ensures Matched(f, v, s, c, v', Step(k, s, ch), c, xs)
  {
    var t, s' := ch.t, Step(k, s, ch);
    var pc := s.threads[t].pc;
    var q, r := pc.curr, k.serve(s.obj, pc.value);
    assert ThreadOk(s.slots, c, t + 1, s.threads[t]);
    if r.1.None? {
      xs := [];
      LockKept(s.lock, s.threads, t, s'.threads[t]);
      QuietMatch(f, v, s, c, s', t, s.threads[t].op, pc, ScanNext(pc.i, pc.changes, q));
    } else {
      RequestOwned(s, c, q);
      var op, y := s.threads[q - 1].op, -r.1.value;
      ServeInv(s, c, s', t, pc.i, pc.changes, q, y);
      xs := [Lin(q - 1)];
      ServeExec(f, v, v', s, s', t, q, op, y);
    }
  }

  // ---------------------------------------------------------------- every step

  lemma ScanMatch<S, V>(k: Service<S>, f: (V, Op) -> (V, int), v: V, s: State<S>, c: seq<nat>, ch: Choice)
    requires Inv(s, c) && k.reps(|s.threads|) > 0 && ch.t < |s.threads| && s.threads[ch.t].In?
    requires var pc := s.threads[ch.t].pc; pc.StartTry? || pc.ScanNext? || pc.ScanRead? || pc.Advance?
    ensures Matched(f, v, s, c, v, Step(k, s, ch), c, [])
  {
    var pc := s.threads[ch.t].pc;
    if pc.StartTry? {
      StartMatch(k, f, v, s, c, ch);
    } else if pc.ScanNext? {
      LookMatch(k, f, v, s, c, ch);
    } else if pc.ScanRead? {
      ReadMatch(k, f, v, s, c, ch);
    } else {
      AdvanceMatch(k, f, v, s, c, ch);
    }
  }

  lemma StepMatch<S, V>(k: Service<S>, f: (V, Op) -> (V, int), v: V, v': V, s: State<S>, c: seq<nat>, ch: Choice)
    returns (c': seq<nat>, xs: seq<Action<Op, int>>)
    requires Inv(s, c) && GoodOp(ch.op) && (|s.threads| > 0 ==> k.reps(|s.threads|) > 0)
    requires ServesAs(k, f, v, v', s, ch)
    ensures Matched(f, v, s, c, v', Step(k, s, ch), c', xs)
  {
    c', xs := c, [];
    if ch.t >= |s.threads| {
    } else if s.threads[ch.t].Out? {
      xs := CallMatch(k, f, v, s, c, ch);
    } else if s.threads[ch.t].pc.Serve? {
      xs := ServeMatch(k, f, v, v', s, c, ch);
    } else if Step(k, s, ch).threads[ch.t].Out? {
      xs := LeaveMatch(k, f, v, s, c, ch);
    } else {
      var pc := s.threads[ch.t].pc;
      if pc.NewSlot? || pc.WriteNext? || pc.Post? {
        OwnSlotMatch(k, f, v, s, c, ch);
      } else if pc.CasTail? {
        c' := LinkMatch(k, f, v, s, c, ch);
      } else if pc.StartTry? || pc.ScanNext? || pc.ScanRead? || pc.Advance? {
        ScanMatch(k, f, v, s, c, ch);
      } else if pc.ReadLock? || pc.CasLock? || pc.Unlock? {
        LockMatch(k, f, v, s, c, ch);
      } else {
        WaitMatch(k, f, v, s, c, ch);
      }
    }
  }

  ghost predicate GoodCalls(sched: seq<Choice>) {
    forall i :: 0 <= i < |sched| ==> GoodOp(sched[i].op)
  }

  lemma InitInv<S, V>(k: Service<S>, v: V, n: nat)
    ensures Inv(Init(k, n), [0]) && Abs(v, Init(k, n)) == NewObject(v, n)
  {
  }
}
