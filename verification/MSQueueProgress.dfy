/**
 Progress of the Michael-Scott queue: a thread that runs by itself, wherever the others have stopped, returns within a
 few steps of its own, and a call that runs so is answered by what the queue holds.
 */
module MSQueueProgress {
  import opened Linearizability
  import opened Options
  import opened MSQueue
  import opened MSQueueProofs

  /** `k` steps of thread `t`, which is inside an operation, while the others stand still. */
  function Alone(s: State, t: nat, k: nat): State
    decreases k
  {
    if k == 0 then s else Alone(Step(s, Choice(t, Dequeue)), t, k - 1)
  }

  // ---------------------------------------------------------------- how many steps are left

  predicate LinkedOn(s: State, r: Ref) { Valid(s, r) && s.nodes[r.ptr.value].next.ptr.Some? }

  /** The steps of `add` from reading `_tail`: a tail that lags is helped first. */
  function AddLeft(s: State): nat { if LinkedOn(s, s.tail) then 10 else 6 }

  function LinkLeft(s: State, tail: Ref, next: Ref): nat {
    if Valid(s, tail) && s.nodes[tail.ptr.value].next == next then 3 else 1 + AddLeft(s)
  }

  /** The steps of `remove` from reading `_head`. */
  function RemoveLeft(s: State): nat {
    if s.head.ptr != s.tail.ptr then 7 else if LinkedOn(s, s.tail) then 12 else 5
  }

  function CheckLeft(s: State, head: Ref, tail: Ref, next: Ref): nat {
    if head != s.head then 1 + RemoveLeft(s)
    else if head.ptr != tail.ptr then 4
    else if next.ptr.None? then 2
    else 2 + if s.tail == tail then 7 else RemoveLeft(s)
  }

  /** The steps until the return, at most. What a thread has read may be out of date, which costs it another round. */
  function Left(s: State, pc: PC): nat {
    match pc
    case NewNode => 1 + AddLeft(s)
    case ReadTail(_) => AddLeft(s)
    case ReadNext(_, tail) => if tail == s.tail then AddLeft(s) - 1 else 2 + AddLeft(s)
    case CheckTail(_, tail, next) =>
      if tail != s.tail then 1 + AddLeft(s) else if next.ptr.None? then 1 + LinkLeft(s, tail, next) else 8
    case LinkNode(_, tail, next) => LinkLeft(s, tail, next)
    case HelpTail(_, tail, _) => 1 + if s.tail == tail then 6 else AddLeft(s)
    case SwingTail(_, _) => 2
    case DReadHead => RemoveLeft(s)
    case DReadTail(head) => if head == s.head then RemoveLeft(s) - 1 else 3 + RemoveLeft(s)
    case DReadNext(head, tail) =>
      1 + CheckLeft(s, head, tail, if Valid(s, head) then s.nodes[head.ptr.value].next else Ref(None, 0))
    case DCheck(head, tail, next) => CheckLeft(s, head, tail, next)
    case DHelpTail(tail, _) => 1 + if s.tail == tail then 7 else RemoveLeft(s)
    case DReadValue(head, _) => if head == s.head then 3 else 2 + RemoveLeft(s)
    case DSwingHead(head, _, _) => if head == s.head then 2 else 1 + RemoveLeft(s)
    case Return(_) => 1
  }

  lemma LeftBound(s: State, pc: PC)
    ensures 0 < Left(s, pc) <= 15
  {
  }

  /** One step of a thread that is inside: it returns, or is nearer to returning. */
  ghost predicate Nearer(s: State, s': State, t: nat)
    requires t < |s.threads| == |s'.threads| && s.threads[t].In?
  {
    if s.threads[t].pc.Return? then s'.threads == s.threads[t := Out]
    else s'.threads == s.threads[t := s'.threads[t]] && s'.threads[t].In? && s'.history == s.history
         && Left(s', s'.threads[t].pc) < Left(s, s.threads[t].pc)
  }

  /** Head and tail, seen along the chain. */
  lemma TailAt(s: State, c: seq<Ptr>, h: nat, k: nat)
    requires Shape(s.nodes, s.head, s.tail, c, h, k)
    ensures Valid(s, s.head) && Valid(s, s.tail)
    ensures LinkedOn(s, s.tail) <==> k == |c| - 2
    ensures s.head.ptr == s.tail.ptr <==> h == k
  {
    if k < |c| - 1 { assert s.nodes[c[k]].next.ptr == Some(c[k + 1]); }
  }

  lemma AddNearer(s: State, c: seq<Ptr>, h: nat, k: nat, ch: Choice)
    requires Inv(s, c, h, k) && ch.t < |s.threads| && s.threads[ch.t].In?
    requires var pc := s.threads[ch.t].pc; pc.NewNode? || pc.ReadTail? || pc.ReadNext? || pc.CheckTail?
    ensures Nearer(s, Step(s, ch), ch.t)
  {
    assert ThreadOk(s.nodes, c, h, k, s.threads[ch.t]);
    TailAt(s, c, h, k);
    var pc := s.threads[ch.t].pc;
    if pc.ReadNext? { NextRead(s.nodes, s.head, s.tail, c, h, k, pc.tail); }
  }

  lemma TailMoved(s: State, c: seq<Ptr>, h: nat, k: nat, next: Ref, s': State)
    requires Shape(s.nodes, s.head, s.tail, c, h, k) && After(c, s.tail, next)
    requires s'.nodes == s.nodes && s'.head == s.head && s'.tail.ptr == next.ptr
    ensures AddLeft(s') == 6 && RemoveLeft(s') == 7
  {
    TailShape(s.nodes, s.head, s.tail, c, h, k, next, s'.tail);
    TailAt(s', c, h, k + 1);
  }

  lemma LinkNearer(s: State, c: seq<Ptr>, h: nat, k: nat, ch: Choice)
    requires Inv(s, c, h, k) && ch.t < |s.threads| && s.threads[ch.t].In?
    requires var pc := s.threads[ch.t].pc; pc.LinkNode? || pc.HelpTail? || pc.SwingTail? || pc.DHelpTail?
    ensures Nearer(s, Step(s, ch), ch.t)
  {
    assert ThreadOk(s.nodes, c, h, k, s.threads[ch.t]);
    TailAt(s, c, h, k);
    var pc, s' := s.threads[ch.t].pc, Step(s, ch);
    if pc.LinkNode? {
      NextRead(s.nodes, s.head, s.tail, c, h, k, pc.tail);
    } else if !pc.SwingTail? && s.tail == pc.tail {
      TailMoved(s, c, h, k, pc.next, s');
    }
  }

  /** With head and tail at one node, that node has a successor exactly when the tail lags. */
  lemma HeadNext(s: State, c: seq<Ptr>, h: nat, k: nat)
    requires Shape(s.nodes, s.head, s.tail, c, h, k)
    ensures Valid(s, s.head) && (s.head.ptr == s.tail.ptr ==> (LinkedOn(s, s.head) <==> LinkedOn(s, s.tail)))
  {
  }

  lemma HeadNearer(s: State, c: seq<Ptr>, h: nat, k: nat, ch: Choice)
    requires Inv(s, c, h, k) && ch.t < |s.threads| && s.threads[ch.t].In?
    requires var pc := s.threads[ch.t].pc; pc.DReadHead? || pc.DReadTail? || pc.DReadNext?
    ensures Nearer(s, Step(s, ch), ch.t)
  {
    assert ThreadOk(s.nodes, c, h, k, s.threads[ch.t]);
    TailAt(s, c, h, k);
    var pc := s.threads[ch.t].pc;
    if pc.DReadTail? && pc.head == s.head { HeadNext(s, c, h, k); }
    if pc.DReadNext? { NextAhead(s.nodes, s.head, s.tail, c, h, k, pc.head, pc.tail); }
  }

  lemma TakeNearer(s: State, c: seq<Ptr>, h: nat, k: nat, ch: Choice)
    requires Inv(s, c, h, k) && ch.t < |s.threads| && s.threads[ch.t].In?
    requires var pc := s.threads[ch.t].pc; pc.DCheck? || pc.DReadValue?
    ensures Nearer(s, Step(s, ch), ch.t)
  {
    assert ThreadOk(s.nodes, c, h, k, s.threads[ch.t]);
    var pc := s.threads[ch.t].pc;
    if pc.DReadValue? { NextRead(s.nodes, s.head, s.tail, c, h, k, pc.next); }
  }

  lemma EndNearer(s: State, ch: Choice)
    requires ch.t < |s.threads| && s.threads[ch.t].In?
    requires s.threads[ch.t].pc.DSwingHead? || s.threads[ch.t].pc.Return?
    ensures Nearer(s, Step(s, ch), ch.t)
  {
  }

  lemma StepNearer(s: State, c: seq<Ptr>, h: nat, k: nat, ch: Choice)
    requires Inv(s, c, h, k) && ch.t < |s.threads| && s.threads[ch.t].In?
    ensures Nearer(s, Step(s, ch), ch.t)
  {
    var pc := s.threads[ch.t].pc;
    if pc.NewNode? || pc.ReadTail? || pc.ReadNext? || pc.CheckTail? {
      AddNearer(s, c, h, k, ch);
    } else if pc.LinkNode? || pc.HelpTail? || pc.SwingTail? || pc.DHelpTail? {
      LinkNearer(s, c, h, k, ch);
    } else if pc.DReadHead? || pc.DReadTail? || pc.DReadNext? {
      HeadNearer(s, c, h, k, ch);
    } else if pc.DCheck? || pc.DReadValue? {
      TakeNearer(s, c, h, k, ch);
    } else {
      EndNearer(s, ch);
    }
  }

  // ---------------------------------------------------------------- every thread can return by itself

  lemma StepKeepsInv(s: State, c: seq<Ptr>, h: nat, k: nat, ch: Choice) returns (c': seq<Ptr>, h': nat, k': nat)
    requires Inv(s, c, h, k)
    ensures Inv(Step(s, ch), c', h', k')
  {
    if AnswersEmpty(s, ch) {
      EmptyMatch(s, c, h, k, ch);
      c', h', k' := c, h, k;
    } else {
      var xs;
      c', h', k', xs := StepMatch(s, c, h, k, ch);
    }
  }

  /** Thread `t` has returned `r` within `bound` steps of its own, and nobody else has moved. */
  ghost predicate ReturnsWithin(s: State, t: nat, m: nat, bound: nat, r: Res)
    requires t < |s.threads|
  {
    && 0 < m <= bound
    && Alone(s, t, m).threads == s.threads[t := Out] && Alone(s, t, m).history == s.history + [Ret(t, r)]
  }

  lemma ReturnsMore(s: State, s': State, t: nat, m: nat, bound: nat, r: Res)
    requires t < |s.threads| == |s'.threads| && s' == Step(s, Choice(t, Dequeue)) && ReturnsWithin(s', t, m, bound, r)
    requires s'.threads == s.threads[t := s'.threads[t]] && s'.history == s.history
    ensures ReturnsWithin(s, t, m + 1, bound + 1, r)
  {
    assert s'.threads[t := Out] == s.threads[t := Out];
  }

  lemma {:induction false} Returns(s: State, c: seq<Ptr>, h: nat, k: nat, t: nat) returns (m: nat, r: Res)
    requires Inv(s, c, h, k) && t < |s.threads| && s.threads[t].In?
    ensures ReturnsWithin(s, t, m, Left(s, s.threads[t].pc), r)
    decreases Left(s, s.threads[t].pc)
  {
    var ch := Choice(t, Dequeue);
    var s', pc := Step(s, ch), s.threads[t].pc;
    StepNearer(s, c, h, k, ch);
    if pc.Return? {
      m, r := 1, pc.res;
      assert Alone(s, t, 1) == Alone(s', t, 0);
    } else {
      var c', h', k' := StepKeepsInv(s, c, h, k, ch);
      m, r := Returns(s', c', h', k', t);
      ReturnsMore(s, s', t, m, Left(s', s'.threads[t].pc), r);
      m := m + 1;
    }
  }

  /** In every run, wherever the other threads are, a thread inside `add` or `remove` returns within 15 steps of its
      own if it is left to run by itself. */
  lemma ObstructionFree(n: nat, wrap: Wrap, sched: seq<Choice>, t: nat) returns (m: nat, r: Res)
    requires t < |Run(n, wrap, sched).threads| && Run(n, wrap, sched).threads[t].In?
    ensures ReturnsWithin(Run(n, wrap, sched), t, m, 15, r)
  {
    var s := Run(n, wrap, sched);
    var c, h, k, xs := RunMatch(n, wrap, sched);
    LeftBound(s, s.threads[t].pc);
    m, r := Returns(s, c, h, k, t);
  }

  // ---------------------------------------------------------------- what a call that runs by itself answers

  /** The values from `_head` to the end of the chain, oldest first. */
  ghost predicate Queue(s: State, q: seq<int>) {
    exists c, h, k :: Shape(s.nodes, s.head, s.tail, c, h, k) && Contents(s.nodes, c, h) == q
  }

  lemma {:induction false} SameChain(nodes: seq<Node>, head: Ref, tail: Ref, c: seq<Ptr>, h: nat, k: nat, c': seq<Ptr>,
                                     h': nat, k': nat, i: nat)
    requires Shape(nodes, head, tail, c, h, k) && Shape(nodes, head, tail, c', h', k') && h + i < |c|
    ensures h' + i < |c'| && c'[h' + i] == c[h + i]
  {
    if i > 0 {
      SameChain(nodes, head, tail, c, h, k, c', h', k', i - 1);
      assert nodes[c[h + i - 1]].next.ptr == Some(c[h + i - 1 + 1]);
      assert h' + i - 1 < |c'| - 1 ==> nodes[c'[h' + i - 1]].next.ptr == Some(c'[h' + i - 1 + 1]);
    }
  }

  /** A state has one queue. */
  lemma QueueUnique(s: State, c: seq<Ptr>, h: nat, k: nat, q: seq<int>)
    requires Shape(s.nodes, s.head, s.tail, c, h, k) && Queue(s, q)
    ensures Contents(s.nodes, c, h) == q
  {
    var c', h', k' :| Shape(s.nodes, s.head, s.tail, c', h', k') && Contents(s.nodes, c', h') == q;
    SameChain(s.nodes, s.head, s.tail, c, h, k, c', h', k', |c| - 1 - h);
    SameChain(s.nodes, s.head, s.tail, c', h', k', c, h, k, |c'| - 1 - h');
    forall i | 0 <= i < |q| ensures Contents(s.nodes, c, h)[i] == q[i] {
      SameChain(s.nodes, s.head, s.tail, c, h, k, c', h', k', i + 1);
    }
  }

  /** What a call on the queue `q` is to answer, and the queue it leaves. */
  ghost predicate Outcome(q: seq<int>, op: Op, r: Res, q': seq<int>) {
    match op
    case Enqueue(v) => r == Added && q' == q + [v]
    case Dequeue => if q == [] then r == Took(0) && q' == [] else r == Took(q[0]) && q' == q[1..]
  }

  /** A call that began on the queue `q` and has run by itself: everything it has read is up to date. */
  ghost predicate OnCourse(s: State, now: seq<int>, q: seq<int>, op: Op, pc: PC) {
    match pc
    case ReadNext(_, tail) => now == q && tail == s.tail
    case CheckTail(_, tail, next) =>
      now == q && tail == s.tail && Valid(s, tail) && next == s.nodes[tail.ptr.value].next
    case SwingTail(_, _) => Outcome(q, op, Added, now)
    case DReadTail(head) => now == q && head == s.head
    case DReadNext(head, tail) => now == q && head == s.head && tail == s.tail
    case DCheck(head, tail, next) =>
      now == q && head == s.head && Valid(s, head) && next == s.nodes[head.ptr.value].next
    case DReadValue(head, _) => now == q && head == s.head
    case DSwingHead(head, _, _) => now == q && head == s.head
    case Return(r) => Outcome(q, op, r, now)
    case _ => now == q
  }

  /** The whole of what is known of such a call. */
  ghost predicate Going(s: State, c: seq<Ptr>, h: nat, k: nat, t: nat, q: seq<int>, op: Op) {
    && Inv(s, c, h, k) && t < |s.threads| && s.threads[t].In? && s.threads[t].op == op
    && OnCourse(s, Contents(s.nodes, c, h), q, op, s.threads[t].pc)
  }

  lemma Unchanged(s: State, c: seq<Ptr>, h: nat, k: nat, s': State, k': nat)
    requires Matched(s, c, h, k, s', c, h, k', [])
    ensures Contents(s'.nodes, c, h) == Contents(s.nodes, c, h)
  {
  }

  lemma AddGoing(s: State, c: seq<Ptr>, h: nat, k: nat, t: nat, q: seq<int>, op: Op) returns (k': nat)
    requires Going(s, c, h, k, t, q, op)
    requires var pc := s.threads[t].pc;
      pc.ReadTail? || pc.ReadNext? || pc.CheckTail? || pc.HelpTail? || pc.SwingTail? || pc.DHelpTail?
    ensures Going(Step(s, Choice(t, Dequeue)), c, h, k', t, q, op)
  {
    var ch, pc := Choice(t, Dequeue), s.threads[t].pc;
    k' := k;
    assert ThreadOk(s.nodes, c, h, k, s.threads[t]);
    if pc.HelpTail? || pc.SwingTail? || pc.DHelpTail? {
      k' := SwingMatch(s, c, h, k, ch);
    } else {
      ReadMatch(s, c, h, k, ch);
    }
    Unchanged(s, c, h, k, Step(s, ch), k');
  }

  lemma NewGoing(s: State, c: seq<Ptr>, h: nat, k: nat, t: nat, q: seq<int>, op: Op)
    requires Going(s, c, h, k, t, q, op) && s.threads[t].pc.NewNode?
    ensures Going(Step(s, Choice(t, Dequeue)), c, h, k, t, q, op)
  {
    var s' := Step(s, Choice(t, Dequeue));
    assert ThreadOk(s.nodes, c, h, k, s.threads[t]);
    NewNodeStep(s, c, h, k, s', t, op);
    assert Contents(s'.nodes, c, h) == Contents(s.nodes, c, h);
  }

  lemma LinkGoing(s: State, c: seq<Ptr>, h: nat, k: nat, t: nat, q: seq<int>, op: Op) returns (c': seq<Ptr>)
    requires Going(s, c, h, k, t, q, op) && s.threads[t].pc.LinkNode?
    ensures Going(Step(s, Choice(t, Dequeue)), c', h, k, t, q, op)
  {
    var ch, pc := Choice(t, Dequeue), s.threads[t].pc;
    var s' := Step(s, ch);
    assert ThreadOk(s.nodes, c, h, k, s.threads[t]);
    NextRead(s.nodes, s.head, s.tail, c, h, k, pc.tail);
    if s.nodes[pc.tail.ptr.value].next == pc.next {
      c' := c + [pc.nd];
      LinkStep(s, c, h, k, s', t, op, pc.nd, pc.tail, pc.next, Next(s, pc.next.stamp));
    } else {
      c' := c;
      QuietMatch(s, c, h, k, s', k, t, op, pc, ReadTail(pc.nd));
    }
  }

  lemma RemoveGoing(s: State, c: seq<Ptr>, h: nat, k: nat, t: nat, q: seq<int>, op: Op)
    requires Going(s, c, h, k, t, q, op)
    requires var pc := s.threads[t].pc; pc.DReadHead? || pc.DReadTail? || pc.DReadNext? || pc.DReadValue?
    ensures Going(Step(s, Choice(t, Dequeue)), c, h, k, t, q, op)
  {
    var ch := Choice(t, Dequeue);
    assert ThreadOk(s.nodes, c, h, k, s.threads[t]);
    DReadMatch(s, c, h, k, ch);
    Unchanged(s, c, h, k, Step(s, ch), k);
  }

  lemma NothingBehind(s: State, c: seq<Ptr>, h: nat, k: nat)
    requires Shape(s.nodes, s.head, s.tail, c, h, k)
    ensures LinkedOn(s, s.head) <==> Contents(s.nodes, c, h) != []
  {
    if h < |c| - 1 {
      assert s.nodes[c[h]].next.ptr == Some(c[h + 1]);
    }
  }

  /** Nothing after the head: the queue is empty, and the answer is 0. */
  lemma CheckGoing(s: State, c: seq<Ptr>, h: nat, k: nat, t: nat, q: seq<int>, op: Op)
    requires Going(s, c, h, k, t, q, op) && s.threads[t].pc.DCheck?
    ensures Going(Step(s, Choice(t, Dequeue)), c, h, k, t, q, op)
  {
    var ch, pc := Choice(t, Dequeue), s.threads[t].pc;
    var s' := Step(s, ch);
    assert ThreadOk(s.nodes, c, h, k, s.threads[t]);
    if AnswersEmpty(s, ch) {
      EmptyMatch(s, c, h, k, ch);
      NothingBehind(s, c, h, k);
    } else {
      QuietMatch(s, c, h, k, s', k, t, op, pc, s'.threads[t].pc);
    }
  }

  lemma TakeGoing(s: State, c: seq<Ptr>, h: nat, k: nat, t: nat, q: seq<int>, op: Op)
    requires Going(s, c, h, k, t, q, op) && s.threads[t].pc.DSwingHead?
    ensures Going(Step(s, Choice(t, Dequeue)), c, h + 1, k, t, q, op)
  {
    var pc, s' := s.threads[t].pc, Step(s, Choice(t, Dequeue));
    assert ThreadOk(s.nodes, c, h, k, s.threads[t]);
    TakenMatch(s, c, h, k, s', t, op, pc);
    HeadShape(s.nodes, s.head, s.tail, c, h, k, pc.next, s'.head);
    assert Contents(s.nodes, c, h)[1..] == Contents(s.nodes, c, h + 1);
  }

  lemma GoesOn(s: State, c: seq<Ptr>, h: nat, k: nat, t: nat, q: seq<int>, op: Op)
    returns (c': seq<Ptr>, h': nat, k': nat)
    requires Going(s, c, h, k, t, q, op) && !s.threads[t].pc.Return?
    ensures Going(Step(s, Choice(t, Dequeue)), c', h', k', t, q, op)
  {
    var pc := s.threads[t].pc;
    c', h', k' := c, h, k;
    if pc.NewNode? {
      NewGoing(s, c, h, k, t, q, op);
    } else if pc.LinkNode? {
      c' := LinkGoing(s, c, h, k, t, q, op);
    } else if pc.DCheck? {
      CheckGoing(s, c, h, k, t, q, op);
    } else if pc.DSwingHead? {
      h' := h + 1;
      TakeGoing(s, c, h, k, t, q, op);
    } else if pc.DReadHead? || pc.DReadTail? || pc.DReadNext? || pc.DReadValue? {
      RemoveGoing(s, c, h, k, t, q, op);
    } else {
      k' := AddGoing(s, c, h, k, t, q, op);
    }
  }

  lemma {:induction false} Answers(s: State, c: seq<Ptr>, h: nat, k: nat, t: nat, q: seq<int>, op: Op)
    returns (m: nat, r: Res, q': seq<int>)
    requires Going(s, c, h, k, t, q, op)
    ensures ReturnsWithin(s, t, m, Left(s, s.threads[t].pc), r) && Outcome(q, op, r, q') && Queue(Alone(s, t, m), q')
    decreases Left(s, s.threads[t].pc)
  {
    var ch := Choice(t, Dequeue);
    var s', pc := Step(s, ch), s.threads[t].pc;
    StepNearer(s, c, h, k, ch);
    if pc.Return? {
      m, r, q' := 1, pc.res, Contents(s.nodes, c, h);
      assert Alone(s, t, 1) == Alone(s', t, 0);
      assert Shape(s'.nodes, s'.head, s'.tail, c, h, k);
    } else {
      var c', h', k' := GoesOn(s, c, h, k, t, q, op);
      m, r, q' := Answers(s', c', h', k', t, q, op);
      ReturnsMore(s, s', t, m, Left(s', s'.threads[t].pc), r);
      m := m + 1;
    }
  }

  /** In every run, wherever the other threads are, a call that runs by itself returns within 12 steps: `add` puts its
      value behind the others; `remove` answers the oldest value, which leaves the queue, or 0 if there is none. */
  lemma SoloCall(n: nat, wrap: Wrap, sched: seq<Choice>, t: nat, op: Op, q: seq<int>)
    returns (m: nat, r: Res, q': seq<int>)
    requires var s := Run(n, wrap, sched); t < |s.threads| && s.threads[t].Out? && Queue(s, q)
    ensures ReturnsWithin(Step(Run(n, wrap, sched), Choice(t, op)), t, m, 12, r) && Outcome(q, op, r, q')
    ensures Queue(Alone(Step(Run(n, wrap, sched), Choice(t, op)), t, m), q')
  {
    var s := Run(n, wrap, sched);
    var c, h, k, xs := RunMatch(n, wrap, sched);
    QueueUnique(s, c, h, k, q);
    var ys := EndsMatch(s, c, h, k, Choice(t, op));
    m, r, q' := Answers(Step(s, Choice(t, op)), c, h, k, t, q, op);
  }
}
