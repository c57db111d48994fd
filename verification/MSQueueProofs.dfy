/** Linearizability and structural safety of the Michael-Scott queue. */
module MSQueueProofs {
  import opened Linearizability
  import opened Options
  import opened MSQueue

  // ---------------------------------------------------------------- one kind of step at a time

  lemma Updates(threads: seq<Thread>, t: nat, th: Thread)
    requires t < |threads|
    ensures OwnedBy(threads[t := th]) == OwnedBy(threads)[t := Own(th)]
  {
  }

  lemma OwnKept(nodes: seq<Node>, c: seq<Ptr>, own: seq<Option<Ptr>>, t: nat, o: Option<Ptr>)
    requires OwnOk(nodes, c, own) && t < |own| && (o == own[t] || o == None)
    ensures OwnOk(nodes, c, own[t := o])
  {
  }

  /** The nodes stay; head or tail may move along the chain. */
  lemma Advance(s: State, c: seq<Ptr>, h: nat, k: nat, s': State, h': nat, k': nat, t: nat, th: Thread)
    requires Inv(s, c, h, k) && t < |s.threads| && s'.threads == s.threads[t := th]
    requires s'.nodes == s.nodes && !s'.fault && h <= h' && k <= k'
    requires Shape(s'.nodes, s'.head, s'.tail, c, h', k')
    requires Own(th) == Own(s.threads[t]) || Own(th) == None
    requires ThreadOk(s.nodes, c, h', k', th)
    ensures Inv(s', c, h', k')
  {
    Updates(s.threads, t, th);
    assert OwnedBy(s.threads)[t] == Own(s.threads[t]);
    OwnKept(s.nodes, c, OwnedBy(s.threads), t, Own(th));
    ThreadsStable(s.nodes, c, h, k, s.nodes, c, h', k', s.threads);
    ThreadsUpdate(s.nodes, c, h', k', s.threads, t, th);
  }

  lemma ThreadsUpdate(nodes: seq<Node>, c: seq<Ptr>, h: nat, k: nat, threads: seq<Thread>, t: nat, th: Thread)
    requires ThreadsOk(nodes, c, h, k, threads) && t < |threads| && ThreadOk(nodes, c, h, k, th)
    ensures ThreadsOk(nodes, c, h, k, threads[t := th])
  {
  }

  lemma NewNodeStep(s: State, c: seq<Ptr>, h: nat, k: nat, s': State, t: nat, op: Op)
    requires Inv(s, c, h, k) && t < |s.threads| && s.threads[t] == In(op, NewNode)
    requires s'.nodes == s.nodes + [Node(op.v, Ref(None, 0))]
    requires s'.threads == s.threads[t := In(op, ReadTail(|s.nodes|))]
    requires op.Enqueue? && s'.head == s.head && s'.tail == s.tail && !s'.fault
    ensures Inv(s', c, h, k)
  {
    var th := In(op, ReadTail(|s.nodes|));
    Updates(s.threads, t, th);
    assert OwnOk(s'.nodes, c, OwnedBy(s.threads)[t := Some(|s.nodes|)]);
    ThreadsStable(s.nodes, c, h, k, s'.nodes, c, h, k, s.threads);
    ThreadsUpdate(s'.nodes, c, h, k, s.threads, t, th);
  }

  lemma LinkShape(nodes: seq<Node>, head: Ref, tail: Ref, c: seq<Ptr>, h: nat, k: nat, nodes': seq<Node>, i: nat,
                  nd: Ptr, stamp: nat)
    requires Shape(nodes, head, tail, c, h, k) && i <= k && nodes[c[i]].next.ptr.None?
    requires nd < |nodes| && nd !in c && nodes[nd].next.ptr.None?
    requires nodes' == nodes[c[i] := nodes[c[i]].(next := Ref(Some(nd), stamp))]
    ensures i == k == |c| - 1
    ensures Shape(nodes', head, tail, c + [nd], h, k)
  {
    forall j | 0 <= j < |c| - 1 ensures nodes[c[j]].next.ptr.Some? {
      assert nodes[c[j]].next.ptr == Some(c[j + 1]);
    }
  }

  lemma LinkOwn(nodes: seq<Node>, c: seq<Ptr>, own: seq<Option<Ptr>>, nodes': seq<Node>, t: nat, p: Ptr)
    requires OwnOk(nodes, c, own) && t < |own| && own[t].Some? && p in c && p < |nodes|
    requires |nodes'| == |nodes| && nodes' == nodes[p := nodes'[p]]
    ensures OwnOk(nodes', c + [own[t].value], own[t := None])
  {
  }

  lemma LinkStep(s: State, c: seq<Ptr>, h: nat, k: nat, s': State, t: nat, op: Op, nd: Ptr, tail: Ref, next: Ref,
                 stamp: nat)
    requires Inv(s, c, h, k) && t < |s.threads| && s.threads[t] == In(op, LinkNode(nd, tail, next))
    requires Valid(s, tail) && s.nodes[tail.ptr.value].next == next && !s'.fault
    requires s'.nodes == s.nodes[tail.ptr.value := s.nodes[tail.ptr.value].(next := Ref(Some(nd), stamp))]
    requires s'.head == s.head && s'.tail == s.tail && s'.threads == s.threads[t := In(op, SwingTail(nd, tail))]
    ensures Inv(s', c + [nd], h, k) && op.Enqueue?
    ensures Contents(s'.nodes, c + [nd], h) == Contents(s.nodes, c, h) + [op.v]
  {
    var own, c' := OwnedBy(s.threads), c + [nd];
    var th := In(op, SwingTail(nd, tail));
    assert own[t] == Some(nd);
    assert ThreadOk(s.nodes, c, h, k, s.threads[t]);
    var i :| 0 <= i <= k && i < |c| && c[i] == tail.ptr.value;
    LinkShape(s.nodes, s.head, s.tail, c, h, k, s'.nodes, i, nd, stamp);
    LinkOwn(s.nodes, c, own, s'.nodes, t, c[i]);
    Updates(s.threads, t, th);
    ThreadsStable(s.nodes, c, h, k, s'.nodes, c', h, k, s.threads);
    assert c'[i] == tail.ptr.value && c'[i + 1] == nd;
    ThreadsUpdate(s'.nodes, c', h, k, s.threads, t, th);
  }

  /** A successful swing of `_tail`: it pointed one before the end. */
  lemma TailShape(nodes: seq<Node>, head: Ref, tail: Ref, c: seq<Ptr>, h: nat, k: nat, next: Ref, tail': Ref)
    requires Shape(nodes, head, tail, c, h, k) && After(c, tail, next) && tail'.ptr == next.ptr
    ensures k + 1 == |c| - 1 && Shape(nodes, head, tail', c, h, k + 1)
  {
    var i :| 0 <= i < |c| - 1 && c[i] == tail.ptr.value && c[i + 1] == next.ptr.value;
    assert i == k;
  }

  /** A successful swing of `_head`: the queue was not empty and its first value leaves. */
  lemma HeadShape(nodes: seq<Node>, head: Ref, tail: Ref, c: seq<Ptr>, h: nat, k: nat, next: Ref, head': Ref)
    requires Shape(nodes, head, tail, c, h, k) && After(c, head, next) && Upto(c, next, k) && head'.ptr == next.ptr
    ensures h < k && c[h + 1] == next.ptr.value && Shape(nodes, head', tail, c, h + 1, k)
    ensures Contents(nodes, c, h) == [nodes[next.ptr.value].value] + Contents(nodes, c, h + 1)
  {
    var i :| 0 <= i < |c| - 1 && c[i] == head.ptr.value && c[i + 1] == next.ptr.value;
    assert i == h;
    var j :| 0 <= j <= k && j < |c| && c[j] == next.ptr.value;
    assert j == i + 1;
  }

  // ---------------------------------------------------------------- simulation

  ghost predicate Matched(s: State, c: seq<Ptr>, h: nat, k: nat, s': State, c': seq<Ptr>, h': nat, k': nat,
                          xs: seq<Action<Op, Res>>) {
    && Inv(s, c, h, k) && Inv(s', c', h', k')
    && Exec(QueueApply, Abs(s, c, h), xs) == Some(Abs(s', c', h'))
    && s'.history == s.history + Visible(xs)
  }

  lemma StatusesUpdate(threads: seq<Thread>, t: nat, th: Thread)
    requires t < |threads|
    ensures Statuses(threads[t := th]) == Statuses(threads)[t := StatusOf(th)]
    ensures StatusOf(th) == StatusOf(threads[t]) ==> Statuses(threads[t := th]) == Statuses(threads)
  {
  }

  lemma MatchNone(s: State, c: seq<Ptr>, h: nat, k: nat, s': State, k': nat, t: nat, th: Thread)
    requires Inv(s, c, h, k) && Inv(s', c, h, k') && t < |s.threads| && s'.threads == s.threads[t := th]
    requires StatusOf(th) == StatusOf(s.threads[t]) && s'.nodes == s.nodes && s'.history == s.history
    ensures Matched(s, c, h, k, s', c, h, k', [])
  {
    StatusesUpdate(s.threads, t, th);
  }

  lemma MatchOne(s: State, c: seq<Ptr>, h: nat, k: nat, s': State, c': seq<Ptr>, h': nat, k': nat, t: nat, th: Thread,
                 x: Action<Op, Res>)
    requires Inv(s, c, h, k) && Inv(s', c', h', k') && t < |s.threads| && s'.threads == s.threads[t := th] && x.t == t
    requires Act(QueueApply, Abs(s, c, h), x) == Some(Atomic(Contents(s'.nodes, c', h'),
      Abs(s, c, h).status[t := StatusOf(th)]))
    requires s'.history == if x.Lin? then s.history else s.history + [x]
    ensures Matched(s, c, h, k, s', c', h', k', [x])
  {
    ExecOne(QueueApply, Abs(s, c, h), x);
    StatusesUpdate(s.threads, t, th);
  }

  /** Steps that move only the thread, or `_tail`. */
  lemma QuietMatch(s: State, c: seq<Ptr>, h: nat, k: nat, s': State, k': nat, t: nat, op: Op, pc: PC, pc': PC)
    requires Inv(s, c, h, k) && t < |s.threads| && s.threads[t] == In(op, pc) && k <= k'
    requires s'.nodes == s.nodes && s'.threads == s.threads[t := In(op, pc')] && s'.history == s.history && !s'.fault
    requires Shape(s'.nodes, s'.head, s'.tail, c, h, k')
    requires Own(In(op, pc')) == Own(In(op, pc)) || Own(In(op, pc')) == None
    requires ThreadOk(s.nodes, c, h, k', In(op, pc')) && StatusOf(In(op, pc)) == StatusOf(In(op, pc'))
    ensures Matched(s, c, h, k, s', c, h, k', [])
  {
    Advance(s, c, h, k, s', h, k', t, In(op, pc'));
    MatchNone(s, c, h, k, s', k', t, In(op, pc'));
  }

  lemma EndsMatch(s: State, c: seq<Ptr>, h: nat, k: nat, ch: Choice) returns (xs: seq<Action<Op, Res>>)
    requires Inv(s, c, h, k) && ch.t < |s.threads| && (s.threads[ch.t].Out? || s.threads[ch.t].pc.Return?)
    ensures Matched(s, c, h, k, Step(s, ch), c, h, k, xs)
    ensures forall i :: 0 <= i < |xs| ==> xs[i].t == ch.t
  {
    var t, s' := ch.t, Step(s, ch);
    var th := s'.threads[t];
    assert Abs(s, c, h).status[t] == StatusOf(s.threads[t]);
    Advance(s, c, h, k, s', h, k, t, th);
    if s.threads[t].Out? {
      xs := [Call(t, ch.op)];
      MatchOne(s, c, h, k, s', c, h, k, t, th, xs[0]);
    } else {
      xs := [Ret(t, s.threads[t].pc.res)];
      MatchOne(s, c, h, k, s', c, h, k, t, th, xs[0]);
    }
  }

  /** Reading `next` of a chain node gives its successor, or null exactly at the end. */
  lemma NextRead(nodes: seq<Node>, head: Ref, tail: Ref, c: seq<Ptr>, h: nat, k: nat, r: Ref)
    requires Shape(nodes, head, tail, c, h, k) && Upto(c, r, k)
    ensures r.ptr.value < |nodes|
    ensures var next := nodes[r.ptr.value].next;
      if r.ptr.value == c[|c| - 1] then next.ptr.None? else After(c, r, next)
  {
    var i :| 0 <= i <= k && i < |c| && c[i] == r.ptr.value;
    if i < |c| - 1 {
      assert nodes[c[i]].next.ptr == Some(c[i + 1]);
    }
  }

  lemma ReadMatch(s: State, c: seq<Ptr>, h: nat, k: nat, ch: Choice)
    requires Inv(s, c, h, k) && ch.t < |s.threads| && s.threads[ch.t].In?
    requires var pc := s.threads[ch.t].pc; pc.ReadTail? || pc.ReadNext? || pc.CheckTail?
    ensures Matched(s, c, h, k, Step(s, ch), c, h, k, [])
  {
    var t, s' := ch.t, Step(s, ch);
    var op, pc := s.threads[t].op, s.threads[t].pc;
    assert ThreadOk(s.nodes, c, h, k, s.threads[t]);
    if pc.ReadNext? { NextRead(s.nodes, s.head, s.tail, c, h, k, pc.tail); }
    QuietMatch(s, c, h, k, s', k, t, op, pc, s'.threads[t].pc);
  }

  /** A compare-and-set of `_tail` from `tail` to its successor, whether or not it succeeds. */
  lemma SwingTo(s: State, c: seq<Ptr>, h: nat, k: nat, s': State, t: nat, op: Op, pc: PC, pc': PC, tail: Ref, next: Ref)
    returns (k': nat)
    requires Inv(s, c, h, k) && t < |s.threads| && s.threads[t] == In(op, pc) && After(c, tail, next)
    requires s'.nodes == s.nodes && s'.threads == s.threads[t := In(op, pc')] && s'.history == s.history && !s'.fault
    requires s'.head == s.head
    requires if s.tail == tail then s'.tail.ptr == next.ptr else s'.tail == s.tail
    requires Own(In(op, pc')) == Own(In(op, pc)) || Own(In(op, pc')) == None
    requires ThreadOk(s.nodes, c, h, k, In(op, pc')) && StatusOf(In(op, pc)) == StatusOf(In(op, pc'))
    ensures Matched(s, c, h, k, s', c, h, k', [])
  {
    k' := k;
    if s.tail == tail {
      TailShape(s.nodes, s.head, s.tail, c, h, k, next, s'.tail);
      k' := k + 1;
      ThreadStable(s.nodes, c, h, k, s.nodes, c, h, k', In(op, pc'));
    }
    QuietMatch(s, c, h, k, s', k', t, op, pc, pc');
  }

  lemma SwingMatch(s: State, c: seq<Ptr>, h: nat, k: nat, ch: Choice) returns (k': nat)
    requires Inv(s, c, h, k) && ch.t < |s.threads| && s.threads[ch.t].In?
    requires var pc := s.threads[ch.t].pc; pc.HelpTail? || pc.SwingTail? || pc.DHelpTail?
    ensures Matched(s, c, h, k, Step(s, ch), c, h, k', [])
  {
    var t := ch.t;
    var op, pc := s.threads[t].op, s.threads[t].pc;
    assert ThreadOk(s.nodes, c, h, k, s.threads[t]);
    match pc
    case HelpTail(nd, tail, next) => k' := SwingTo(s, c, h, k, Step(s, ch), t, op, pc, ReadTail(nd), tail, next);
    case SwingTail(nd, tail) => k' := SwingTo(s, c, h, k, Step(s, ch), t, op, pc, Return(Added), tail,
      Ref(Some(nd), 0));
    case DHelpTail(tail, next) => k' := SwingTo(s, c, h, k, Step(s, ch), t, op, pc, DReadHead, tail, next);
  }

  lemma LinkMatch(s: State, c: seq<Ptr>, h: nat, k: nat, ch: Choice) returns (c': seq<Ptr>, xs: seq<Action<Op, Res>>)
    requires Inv(s, c, h, k) && ch.t < |s.threads| && s.threads[ch.t].In?
    requires s.threads[ch.t].pc.NewNode? || s.threads[ch.t].pc.LinkNode?
    ensures Matched(s, c, h, k, Step(s, ch), c', h, k, xs)
    ensures forall i :: 0 <= i < |xs| ==> xs[i].t == ch.t
  {
    var t, s' := ch.t, Step(s, ch);
    var op, pc := s.threads[t].op, s.threads[t].pc;
    assert ThreadOk(s.nodes, c, h, k, s.threads[t]);
    c', xs := c, [];
    if pc.NewNode? {
      NewNodeStep(s, c, h, k, s', t, op);
      assert Contents(s'.nodes, c, h) == Contents(s.nodes, c, h);
      assert Abs(s', c, h).status == Abs(s, c, h).status;
    } else {
      NextRead(s.nodes, s.head, s.tail, c, h, k, pc.tail);
      if s.nodes[pc.tail.ptr.value].next == pc.next {
        c', xs := c + [pc.nd], [Lin(t)];
        LinkStep(s, c, h, k, s', t, op, pc.nd, pc.tail, pc.next, Next(s, pc.next.stamp));
        assert Abs(s, c, h).status[t] == Pending(op);
        MatchOne(s, c, h, k, s', c', h, k, t, In(op, SwingTail(pc.nd, pc.tail)), Lin(t));
      } else {
        QuietMatch(s, c, h, k, s', k, t, op, pc, ReadTail(pc.nd));
      }
    }
  }

  lemma DReadMatch(s: State, c: seq<Ptr>, h: nat, k: nat, ch: Choice)
    requires Inv(s, c, h, k) && ch.t < |s.threads| && s.threads[ch.t].In?
    requires var pc := s.threads[ch.t].pc; pc.DReadHead? || pc.DReadTail? || pc.DReadNext? || pc.DReadValue?
    ensures Matched(s, c, h, k, Step(s, ch), c, h, k, [])
    ensures Step(s, ch).threads[ch.t].pc.DCheck? && Step(s, ch).threads[ch.t].pc.next.ptr.None? ==> h == |c| - 1
  {
    var t, s' := ch.t, Step(s, ch);
    var op, pc := s.threads[t].op, s.threads[t].pc;
    assert ThreadOk(s.nodes, c, h, k, s.threads[t]);
    if pc.DReadTail? { assert c[k] == s.tail.ptr.value; }
    if pc.DReadNext? { NextAhead(s.nodes, s.head, s.tail, c, h, k, pc.head, pc.tail); }
    if pc.DReadValue? { NextRead(s.nodes, s.head, s.tail, c, h, k, pc.next); }
    QuietMatch(s, c, h, k, s', k, t, op, pc, s'.threads[t].pc);
  }

  /** A node strictly before `tail` has a successor, and not past `tail`. */
  lemma NextAhead(nodes: seq<Node>, head: Ref, tail: Ref, c: seq<Ptr>, h: nat, k: nat, p: Ref, q: Ref)
    requires Shape(nodes, head, tail, c, h, k) && Upto(c, p, h) && Upto(c, q, k) && NotPast(c, p, q)
    ensures p.ptr.value < |nodes|
    ensures var next := nodes[p.ptr.value].next;
      && (next.ptr.None? || After(c, p, next))
      && (p.ptr != q.ptr ==> After(c, p, next) && Upto(c, next, k))
      && (next.ptr.None? ==> h == |c| - 1)
  {
    var i :| 0 <= i <= h && i < |c| && c[i] == p.ptr.value;
    var j :| 0 <= j <= k && j < |c| && c[j] == q.ptr.value;
    var i', j' :| 0 <= i' <= j' < |c| && c[i'] == p.ptr.value && c[j'] == q.ptr.value;
    assert i' == i && j' == j;
    if i < |c| - 1 {
      assert nodes[c[i]].next.ptr == Some(c[i + 1]);
    }
  }

  /** The successful compare-and-set of `remove` takes the first value. */
  lemma TakenMatch(s: State, c: seq<Ptr>, h: nat, k: nat, s': State, t: nat, op: Op, pc: PC)
    requires Inv(s, c, h, k) && t < |s.threads| && s.threads[t] == In(op, pc) && pc.DSwingHead? && s.head == pc.head
    requires s' == s.(head := Ref(pc.next.ptr, Next(s, pc.head.stamp)),
                      threads := s.threads[t := In(op, Return(Took(pc.value)))])
    ensures Matched(s, c, h, k, s', c, h + 1, k, [Lin(t)])
  {
    var th := In(op, Return(Took(pc.value)));
    assert ThreadOk(s.nodes, c, h, k, s.threads[t]);
    HeadShape(s.nodes, s.head, s.tail, c, h, k, pc.next, s'.head);
    Advance(s, c, h, k, s', h + 1, k, t, th);
    assert Abs(s, c, h).status[t] == Pending(op);
    MatchOne(s, c, h, k, s', c, h + 1, k, t, th, Lin(t));
  }

  /** The first check and the last compare-and-set of `remove`. */
  lemma TakeMatch(s: State, c: seq<Ptr>, h: nat, k: nat, ch: Choice) returns (h': nat, xs: seq<Action<Op, Res>>)
    requires Inv(s, c, h, k) && ch.t < |s.threads| && s.threads[ch.t].In?
    requires s.threads[ch.t].pc.DCheck? || s.threads[ch.t].pc.DSwingHead?
    requires !Step(s, ch).threads[ch.t].pc.Return? || s.threads[ch.t].pc.DSwingHead?
    ensures Matched(s, c, h, k, Step(s, ch), c, h', k, xs)
    ensures forall i :: 0 <= i < |xs| ==> xs[i].t == ch.t
  {
    var t, s' := ch.t, Step(s, ch);
    var op, pc := s.threads[t].op, s.threads[t].pc;
    if pc.DSwingHead? && s.head == pc.head {
      h', xs := h + 1, [Lin(t)];
      TakenMatch(s, c, h, k, s', t, op, pc);
    } else {
      h', xs := h, [];
      assert ThreadOk(s.nodes, c, h, k, s.threads[t]);
      QuietMatch(s, c, h, k, s', k, t, op, pc, s'.threads[t].pc);
    }
  }

  // ---------------------------------------------------------------- every step

  /** The one step whose effect lies in the past: `remove` returning that the queue is empty. */
  predicate AnswersEmpty(s: State, ch: Choice) {
    && ch.t < |s.threads| && s.threads[ch.t].In? && s.threads[ch.t].pc.DCheck?
    && Step(s, ch).threads[ch.t].In? && Step(s, ch).threads[ch.t].pc.Return?
  }

  /** A dequeuer that has read a null `next` and not yet validated its head. */
  predicate SawEmpty(th: Thread) {
    th.In? && th.pc.DCheck? && th.pc.next.ptr.None?
  }

  /** Only the read of `next` can see the queue empty. */
  lemma SeenByRead(s: State, ch: Choice)
    requires ch.t < |s.threads| && SawEmpty(Step(s, ch).threads[ch.t])
    ensures s.threads[ch.t].In? && (s.threads[ch.t].pc.DReadNext? || Step(s, ch).fault)
  {
  }

  /** The steps of `add` between its call and its return. */
  lemma EnqueueMatch(s: State, c: seq<Ptr>, h: nat, k: nat, ch: Choice)
    returns (c': seq<Ptr>, k': nat, xs: seq<Action<Op, Res>>)
    requires Inv(s, c, h, k) && ch.t < |s.threads| && s.threads[ch.t].In?
    requires var pc := s.threads[ch.t].pc;
      pc.NewNode? || pc.ReadTail? || pc.ReadNext? || pc.CheckTail? || pc.LinkNode? || pc.HelpTail? || pc.SwingTail?
    ensures Matched(s, c, h, k, Step(s, ch), c', h, k', xs) && forall i :: 0 <= i < |xs| ==> xs[i].t == ch.t
  {
    var pc := s.threads[ch.t].pc;
    c', k', xs := c, k, [];
    if pc.ReadTail? || pc.ReadNext? || pc.CheckTail? {
      ReadMatch(s, c, h, k, ch);
    } else if pc.HelpTail? || pc.SwingTail? {
      k' := SwingMatch(s, c, h, k, ch);
    } else {
      c', xs := LinkMatch(s, c, h, k, ch);
    }
  }

  /** The steps of `remove` between its call and its return. */
  lemma DequeueMatch(s: State, c: seq<Ptr>, h: nat, k: nat, ch: Choice)
    returns (h': nat, k': nat, xs: seq<Action<Op, Res>>)
    requires Inv(s, c, h, k) && ch.t < |s.threads| && s.threads[ch.t].In? && !AnswersEmpty(s, ch)
    requires var pc := s.threads[ch.t].pc;
      pc.DReadHead? || pc.DReadTail? || pc.DReadNext? || pc.DReadValue? || pc.DHelpTail? || pc.DCheck? || pc.DSwingHead?
    ensures Matched(s, c, h, k, Step(s, ch), c, h', k', xs) && forall i :: 0 <= i < |xs| ==> xs[i].t == ch.t
    ensures s.threads[ch.t].pc.DReadNext? ==> xs == [] && h' == h
    ensures s.threads[ch.t].pc.DReadNext? && SawEmpty(Step(s, ch).threads[ch.t]) ==> h == |c| - 1
  {
    var pc := s.threads[ch.t].pc;
    h', k', xs := h, k, [];
    if pc.DHelpTail? {
      k' := SwingMatch(s, c, h, k, ch);
    } else if pc.DCheck? || pc.DSwingHead? {
      h', xs := TakeMatch(s, c, h, k, ch);
    } else {
      DReadMatch(s, c, h, k, ch);
    }
  }

  lemma StepMatch(s: State, c: seq<Ptr>, h: nat, k: nat, ch: Choice)
    returns (c': seq<Ptr>, h': nat, k': nat, xs: seq<Action<Op, Res>>)
    requires Inv(s, c, h, k) && !AnswersEmpty(s, ch)
    ensures Matched(s, c, h, k, Step(s, ch), c', h', k', xs)
    ensures forall i :: 0 <= i < |xs| ==> xs[i].t == ch.t
    ensures ch.t < |s.threads| && SawEmpty(Step(s, ch).threads[ch.t]) ==> xs == [] && h' == |c'| - 1
  {
    c', h', k', xs := c, h, k, [];
    if ch.t < |s.threads| {
      var th := s.threads[ch.t];
      if th.Out? || th.pc.Return? {
        xs := EndsMatch(s, c, h, k, ch);
      } else if th.pc.NewNode? || th.pc.ReadTail? || th.pc.ReadNext? || th.pc.CheckTail? || th.pc.LinkNode?
        || th.pc.HelpTail? || th.pc.SwingTail? {
        c', k', xs := EnqueueMatch(s, c, h, k, ch);
      } else {
        h', k', xs := DequeueMatch(s, c, h, k, ch);
      }
      if SawEmpty(Step(s, ch).threads[ch.t]) {
        SeenByRead(s, ch);
      }
    }
  }

  lemma EmptyMatch(s: State, c: seq<Ptr>, h: nat, k: nat, ch: Choice)
    requires Inv(s, c, h, k) && AnswersEmpty(s, ch)
    ensures SawEmpty(s.threads[ch.t]) && s.threads[ch.t].op == Dequeue
    ensures Inv(Step(s, ch), c, h, k) && Step(s, ch).history == s.history
    ensures Abs(s, c, h).status[ch.t] == Pending(Dequeue)
    ensures Abs(Step(s, ch), c, h) == Abs(s, c, h).(status :=
      Abs(s, c, h).status[ch.t := Done(Dequeue, Took(NULL_VALUE))])
  {
    var t, s' := ch.t, Step(s, ch);
    assert ThreadOk(s.nodes, c, h, k, s.threads[t]);
    var th := In(Dequeue, Return(Took(NULL_VALUE)));
    Advance(s, c, h, k, s', h, k, t, th);
    assert Abs(s', c, h).status == Abs(s, c, h).status[t := StatusOf(th)];
  }

  // ---------------------------------------------------------------- whole runs

  ghost predicate EmptySeen(n: nat, threads: seq<Thread>, xs: seq<Action<Op, Res>>) {
    forall t :: 0 <= t < |threads| && SawEmpty(threads[t]) ==>
      exists m :: CouldAnswerAt(QueueApply, NewObject([], n), xs, t, Took(NULL_VALUE), m)
  }

  lemma InitInv(n: nat, wrap: Wrap)
    ensures Inv(Init(n, wrap), [0], 0, 0) && Abs(Init(n, wrap), [0], 0) == NewObject([], n)
  {
    var s := Init(n, wrap);
    assert OwnedBy(s.threads) == seq(n, i => None);
    assert Abs(s, [0], 0).obj == [];
  }

  /** Only the scheduled thread's program point changes. */
  lemma OthersKept(s: State, ch: Choice, u: nat)
    requires u < |s.threads| && u != ch.t
    ensures Step(s, ch).threads[u] == s.threads[u]
  {
  }

  lemma {:induction false} RunMatch(n: nat, wrap: Wrap, sched: seq<Choice>)
    returns (c: seq<Ptr>, h: nat, k: nat, xs: seq<Action<Op, Res>>)
    ensures var s := Run(n, wrap, sched);
      && Inv(s, c, h, k)
      && Exec(QueueApply, NewObject([], n), xs) == Some(Abs(s, c, h))
      && Visible(xs) == s.history
      && EmptySeen(n, s.threads, xs)
  {
    if sched == [] {
      InitInv(n, wrap);
      c, h, k, xs := [0], 0, 0, [];
    } else {
      var s, ch := Run(n, wrap, sched[..|sched| - 1]), sched[|sched| - 1];
      c, h, k, xs := RunMatch(n, wrap, sched[..|sched| - 1]);
      if AnswersEmpty(s, ch) {
        xs := EmptyExtend(n, s, c, h, k, ch, xs);
      } else {
        c, h, k, xs := StepExtend(n, s, c, h, k, ch, xs);
      }
    }
  }

  lemma StepExtend(n: nat, s: State, c0: seq<Ptr>, h0: nat, k0: nat, ch: Choice, xs: seq<Action<Op, Res>>)
    returns (c: seq<Ptr>, h: nat, k: nat, xs': seq<Action<Op, Res>>)
    requires Inv(s, c0, h0, k0) && Exec(QueueApply, NewObject([], n), xs) == Some(Abs(s, c0, h0))
    requires Visible(xs) == s.history && EmptySeen(n, s.threads, xs) && !AnswersEmpty(s, ch)
    ensures Inv(Step(s, ch), c, h, k) && Exec(QueueApply, NewObject([], n), xs') == Some(Abs(Step(s, ch), c, h))
    ensures Visible(xs') == Step(s, ch).history && EmptySeen(n, Step(s, ch).threads, xs')
  {
    var s', ys, o := Step(s, ch), [], NewObject([], n);
    c, h, k, ys := StepMatch(s, c0, h0, k0, ch);
    ExecConcat(QueueApply, o, xs, ys);
    xs' := xs + ys;
    forall t | 0 <= t < |s'.threads| && SawEmpty(s'.threads[t])
      ensures exists m :: CouldAnswerAt(QueueApply, o, xs', t, Took(NULL_VALUE), m)
    {
      if t == ch.t {
        assert xs' == xs && xs[..|xs|] == xs;
        assert Contents(s'.nodes, c, h) == [];
        EmptyNow(n, s', c, h, k, t, xs);
      } else {
        OthersKept(s, ch, t);
        var m: nat :| CouldAnswerAt(QueueApply, o, xs, t, Took(NULL_VALUE), m);
        CouldAnswerExtends(QueueApply, o, xs, ys, t, Took(NULL_VALUE), m);
      }
    }
  }

  /** A thread that has just read a null `next` could answer right now: the queue is empty. */
  lemma EmptyNow(n: nat, s: State, c: seq<Ptr>, h: nat, k: nat, t: nat, xs: seq<Action<Op, Res>>)
    requires Inv(s, c, h, k) && h == |c| - 1 && t < |s.threads| && SawEmpty(s.threads[t])
    requires Exec(QueueApply, NewObject([], n), xs) == Some(Abs(s, c, h))
    ensures CouldAnswerAt(QueueApply, NewObject([], n), xs, t, Took(NULL_VALUE), |xs|)
  {
    assert xs[..|xs|] == xs;
    assert ThreadOk(s.nodes, c, h, k, s.threads[t]);
    assert Abs(s, c, h).status[t] == Pending(Dequeue) && Abs(s, c, h).obj == [];
  }

  lemma EmptyExtend(n: nat, s: State, c: seq<Ptr>, h: nat, k: nat, ch: Choice, xs: seq<Action<Op, Res>>)
    returns (xs': seq<Action<Op, Res>>)
    requires Inv(s, c, h, k) && Exec(QueueApply, NewObject([], n), xs) == Some(Abs(s, c, h))
    requires Visible(xs) == s.history && EmptySeen(n, s.threads, xs) && AnswersEmpty(s, ch)
    ensures Inv(Step(s, ch), c, h, k) && Exec(QueueApply, NewObject([], n), xs') == Some(Abs(Step(s, ch), c, h))
    ensures Visible(xs') == Step(s, ch).history && EmptySeen(n, Step(s, ch).threads, xs')
  {
    var s', o, r := Step(s, ch), NewObject([], n), Took(NULL_VALUE);
    EmptyMatch(s, c, h, k, ch);
    var k0: nat :| CouldAnswerAt(QueueApply, o, xs, ch.t, r, k0);
    AnswerInThePast(QueueApply, o, xs, ch.t, r, k0);
    xs' := xs[..k0] + [Lin(ch.t)] + xs[k0..];
    forall t | 0 <= t < |s'.threads| && SawEmpty(s'.threads[t])
      ensures exists m :: CouldAnswerAt(QueueApply, o, xs', t, r, m)
    {
      OthersKept(s, ch, t);
      var m: nat :| CouldAnswerAt(QueueApply, o, xs, t, r, m);
      var m' := OthersCouldStillAnswer(QueueApply, o, xs, ch.t, r, k0, t, r, m);
    }
  }

  /** Linearizability: whatever the schedule, the calls and returns are those of an atomic FIFO queue. */
  lemma QueueLinearizable(n: nat, wrap: Wrap, sched: seq<Choice>)
    ensures Linearizable(QueueApply, [], n, Run(n, wrap, sched).history)
  {
    var c, h, k, xs := RunMatch(n, wrap, sched);
  }

  /** Reachable states: no null is dereferenced, head is not past tail, tail is last or last but one. */
  lemma QueueShape(n: nat, wrap: Wrap, sched: seq<Choice>)
    ensures var s := Run(n, wrap, sched);
      !s.fault && exists c, h, k :: Shape(s.nodes, s.head, s.tail, c, h, k)
  {
    var c, h, k, xs := RunMatch(n, wrap, sched);
  }

  /** Node `p`, if it is there, keeps its value, and its link if it has one. */
  ghost predicate Kept(s: State, s': State, p: Ptr) {
    p < |s.nodes| ==>
      && p < |s'.nodes| && s'.nodes[p].value == s.nodes[p].value
      && (s.nodes[p].next.ptr.Some? ==> s'.nodes[p].next == s.nodes[p].next)
  }

  lemma StepKeeps(n: nat, wrap: Wrap, sched: seq<Choice>, ch: Choice, p: Ptr)
    ensures Kept(Run(n, wrap, sched), Step(Run(n, wrap, sched), ch), p)
  {
    var s := Run(n, wrap, sched);
    var c, h, k, xs := RunMatch(n, wrap, sched);
    if ch.t < |s.threads| {
      assert ThreadOk(s.nodes, c, h, k, s.threads[ch.t]);
    }
  }

  lemma NextStays(n: nat, wrap: Wrap, sched: seq<Choice>, i: nat, p: Ptr)
    requires i < |sched|
    ensures Kept(Run(n, wrap, sched[..i]), Run(n, wrap, sched[..i + 1]), p)
  {
    StepKeeps(n, wrap, sched[..i], sched[i], p);
    assert sched[..i + 1][..i] == sched[..i];
  }

  lemma {:induction false} KeptThrough(states: seq<State>, i: nat, j: nat, p: Ptr)
    requires i <= j < |states| && forall k :: 0 <= k < |states| - 1 ==> Kept(states[k], states[k + 1], p)
    ensures Kept(states[i], states[j], p)
    decreases j
  {
    if i < j {
      KeptThrough(states, i, j - 1, p);
      assert Kept(states[j - 1], states[j - 1 + 1], p);
    }
  }

  /** Over a whole run `next` fields are written once, and values never: whatever comes after the first `i` steps, the
      nodes there are keep their values, and the links there are stay. */
  lemma NextWrittenOnce(n: nat, wrap: Wrap, sched: seq<Choice>, i: nat, j: nat, p: Ptr)
    requires i <= j <= |sched|
    ensures Kept(Run(n, wrap, sched[..i]), Run(n, wrap, sched[..j]), p)
  {
    var states := seq(|sched| + 1, k requires 0 <= k <= |sched| => Run(n, wrap, sched[..k]));
    forall k | 0 <= k < |states| - 1 ensures Kept(states[k], states[k + 1], p) {
      NextStays(n, wrap, sched, k, p);
    }
    KeptThrough(states, i, j, p);
  }
}
