/**
 The lock-free queue of All_Summer2017/testProject/data_structures/MSQueue.h as a state machine.

 Every shared read and every compare-and-set is one step. Nodes are never freed, so a node is its
 index in `nodes`. References carry stamps that wrap at `wrap` (0x10000 on 64-bit builds,
 0x1_0000_0000 on 32-bit ones); nothing proved below depends on their values.
 */
module MSQueue {
  import opened Linearizability
  import opened Options

  const NULL_VALUE: int := 0

  datatype Op = Enqueue(v: int) | Dequeue
  datatype Res = Added | Took(v: int)

  /** The sequential object: a FIFO queue; an empty queue answers `NULL_VALUE`. */
  function QueueApply(q: seq<int>, op: Op): (seq<int>, Res) {
    match op
    case Enqueue(v) => (q + [v], Added)
    case Dequeue => if q == [] then (q, Took(NULL_VALUE)) else (q[1..], Took(q[0]))
  }

  type Ptr = nat
  type Wrap = m: nat | m > 0 witness 1

  /** AtomicStampedReference: a possibly null pointer and a stamp, read and written together. */
  datatype Ref = Ref(ptr: Option<Ptr>, stamp: nat)

  datatype Node = Node(value: int, next: Ref)

  /** Program points, named after the access that comes next. */
  datatype PC =
    | NewNode                                       // add: allocate
    | ReadTail(nd: Ptr)                             // tail = _tail
    | ReadNext(nd: Ptr, tail: Ref)                  // next = tail->_next
    | CheckTail(nd: Ptr, tail: Ref, next: Ref)      // tail == _tail ?
    | LinkNode(nd: Ptr, tail: Ref, next: Ref)       // CAS tail->_next: next to nd
    | HelpTail(nd: Ptr, tail: Ref, next: Ref)       // CAS _tail: tail to next
    | SwingTail(nd: Ptr, tail: Ref)                 // CAS _tail: tail to nd
    | DReadHead                                     // remove: head = _head
    | DReadTail(head: Ref)                          // tail = _tail
    | DReadNext(head: Ref, tail: Ref)               // next = head->_next
    | DCheck(head: Ref, tail: Ref, next: Ref)       // head == _head ?
    | DHelpTail(tail: Ref, next: Ref)               // CAS _tail: tail to next
    | DReadValue(head: Ref, next: Ref)              // next->_value
    | DSwingHead(head: Ref, next: Ref, value: int)  // CAS _head: head to next
    | Return(res: Res)

  datatype Thread = Out | In(op: Op, pc: PC)

  /** `fault` records a dereference of a null reference. */
  datatype State = State(nodes: seq<Node>, head: Ref, tail: Ref, threads: seq<Thread>, wrap: Wrap, fault: bool,
                         history: seq<Action<Op, Res>>)

  datatype Choice = Choice(t: nat, op: Op)

  /** The constructor, lines 46-52: one dummy node. */
  function Init(n: nat, wrap: Wrap): State {
    State([Node(NULL_VALUE, Ref(None, 0))], Ref(Some(0), 0), Ref(Some(0), 0), seq(n, i => Out), wrap, false, [])
  }

  function Goto(s: State, t: nat, pc: PC): State
    requires t < |s.threads| && s.threads[t].In?
  {
    s.(threads := s.threads[t := In(s.threads[t].op, pc)])
  }

  function Next(s: State, stamp: nat): nat { (stamp + 1) % s.wrap }

  predicate Valid(s: State, r: Ref) { r.ptr.Some? && r.ptr.value < |s.nodes| }

  function Step(s: State, ch: Choice): (s': State)
    ensures |s'.threads| == |s.threads|
  {
    var t := ch.t;
    if t >= |s.threads| then s else
    match s.threads[t]
    case Out =>
      s.(threads := s.threads[t := In(ch.op, if ch.op.Enqueue? then NewNode else DReadHead)],
        history := s.history + [Call(t, ch.op)])
    case In(op, pc) =>
      match pc
      case NewNode =>
        Goto(s.(nodes := s.nodes + [Node(if op.Enqueue? then op.v else NULL_VALUE, Ref(None, 0))]), t,
             ReadTail(|s.nodes|))
      case ReadTail(nd) => Goto(s, t, ReadNext(nd, s.tail))
      case ReadNext(nd, tail) =>
        if !Valid(s, tail) then s.(fault := true) else Goto(s, t, CheckTail(nd, tail, s.nodes[tail.ptr.value].next))
      case CheckTail(nd, tail, next) =>
        Goto(s, t, if tail != s.tail then ReadTail(nd) else if next.ptr.None? then LinkNode(nd, tail, next)
             else HelpTail(nd, tail, next))
      case LinkNode(nd, tail, next) =>
        if !Valid(s, tail) then s.(fault := true)
        else if s.nodes[tail.ptr.value].next == next then
          Goto(s.(nodes := s.nodes[tail.ptr.value := s.nodes[tail.ptr.value].(next :=
               Ref(Some(nd), Next(s, next.stamp)))]), t, SwingTail(nd, tail))
        else Goto(s, t, ReadTail(nd))
      case HelpTail(nd, tail, next) =>
        Goto(if s.tail == tail then s.(tail := Ref(next.ptr, Next(s, next.stamp))) else s, t, ReadTail(nd))
      case SwingTail(nd, tail) =>
        Goto(if s.tail == tail then s.(tail := Ref(Some(nd), Next(s, tail.stamp))) else s, t, Return(Added))
      case DReadHead => Goto(s, t, DReadTail(s.head))
      case DReadTail(head) => Goto(s, t, DReadNext(head, s.tail))
      case DReadNext(head, tail) =>
        if !Valid(s, head) then s.(fault := true) else Goto(s, t, DCheck(head, tail, s.nodes[head.ptr.value].next))
      case DCheck(head, tail, next) =>
        Goto(s, t,
          if head != s.head then DReadHead
          else if head.ptr != tail.ptr then DReadValue(head, next)
          else if next.ptr.None? then Return(Took(NULL_VALUE))
          else DHelpTail(tail, next))
      case DHelpTail(tail, next) =>
        Goto(if s.tail == tail then s.(tail := Ref(next.ptr, Next(s, tail.stamp))) else s, t, DReadHead)
      case DReadValue(head, next) =>
        if !Valid(s, next) then s.(fault := true) else Goto(s, t, DSwingHead(head, next, s.nodes[next.ptr.value].value))
      case DSwingHead(head, next, value) =>
        if s.head == head then Goto(s.(head := Ref(next.ptr, Next(s, head.stamp))), t, Return(Took(value)))
          else Goto(s, t, DReadHead)
      case Return(res) => s.(threads := s.threads[t := Out], history := s.history + [Ret(t, res)])
  }

  function Run(n: nat, wrap: Wrap, sched: seq<Choice>): State {
    if sched == [] then Init(n, wrap) else Step(Run(n, wrap, sched[..|sched| - 1]), sched[|sched| - 1])
  }

  // ---------------------------------------------------------------- the invariant

  /** `c` lists every node ever linked, oldest first; `h` and `k` are the places of head and tail.
      Head never passes tail and tail lags the last node by at most one. */
  ghost predicate Shape(nodes: seq<Node>, head: Ref, tail: Ref, c: seq<Ptr>, h: nat, k: nat) {
    && h <= k < |c| <= k + 2
    && (forall i :: 0 <= i < |c| ==> c[i] < |nodes|)
    && (forall i, j :: 0 <= i < j < |c| ==> c[i] != c[j])
    && (forall i :: 0 <= i < |c| - 1 ==> nodes[c[i]].next.ptr == Some(c[i + 1]))
    && nodes[c[|c| - 1]].next.ptr == None
    && head.ptr == Some(c[h]) && tail.ptr == Some(c[k])
  }

  /** `r` points into the first `k + 1` nodes of the chain. */
  ghost predicate Upto(c: seq<Ptr>, r: Ref, k: nat) {
    r.ptr.Some? && exists i :: 0 <= i <= k && i < |c| && c[i] == r.ptr.value
  }

  /** `q` is the chain node right after `p`. */
  ghost predicate After(c: seq<Ptr>, p: Ref, q: Ref) {
    p.ptr.Some? && q.ptr.Some? && exists i :: 0 <= i < |c| - 1 && c[i] == p.ptr.value && c[i + 1] == q.ptr.value
  }

  /** `p` is not behind `q`. */
  ghost predicate NotPast(c: seq<Ptr>, p: Ref, q: Ref) {
    p.ptr.Some? && q.ptr.Some? && exists i, j :: 0 <= i <= j < |c| && c[i] == p.ptr.value && c[j] == q.ptr.value
  }

  ghost predicate ThreadOk(nodes: seq<Node>, c: seq<Ptr>, h: nat, k: nat, th: Thread) {
    match th
    case Out => true
    case In(op, pc) =>
      match pc
      case NewNode => op.Enqueue?
      case ReadTail(nd) => op.Enqueue? && nd < |nodes| && nodes[nd].value == op.v
      case ReadNext(nd, tail) => op.Enqueue? && nd < |nodes| && nodes[nd].value == op.v && Upto(c, tail, k)
      case CheckTail(nd, tail, next) =>
        op.Enqueue? && nd < |nodes| && nodes[nd].value == op.v && Upto(c, tail, k)
          && (next.ptr.None? || After(c, tail, next))
      case LinkNode(nd, tail, next) =>
        op.Enqueue? && nd < |nodes| && nodes[nd].value == op.v && Upto(c, tail, k) && next.ptr.None?
      case HelpTail(nd, tail, next) => op.Enqueue? && nd < |nodes| && nodes[nd].value == op.v && After(c, tail, next)
      case SwingTail(nd, tail) => op.Enqueue? && After(c, tail, Ref(Some(nd), 0))
      case DReadHead => op.Dequeue?
      case DReadTail(head) => op.Dequeue? && Upto(c, head, h)
      case DReadNext(head, tail) => op.Dequeue? && Upto(c, head, h) && Upto(c, tail, k) && NotPast(c, head, tail)
      case DCheck(head, tail, next) =>
        && op.Dequeue? && Upto(c, head, h) && Upto(c, tail, k)
        && (next.ptr.None? || After(c, head, next))
        && (head.ptr != tail.ptr ==> After(c, head, next) && Upto(c, next, k))
      case DHelpTail(tail, next) => op.Dequeue? && After(c, tail, next)
      case DReadValue(head, next) => op.Dequeue? && After(c, head, next) && Upto(c, next, k)
      case DSwingHead(head, next, value) =>
        op.Dequeue? && After(c, head, next) && Upto(c, next, k)
          && next.ptr.value < |nodes| && nodes[next.ptr.value].value == value
      case Return(_) => true
  }

  /** The node a thread has allocated and not yet linked. */
  function Own(th: Thread): Option<Ptr> {
    if th.In? && (th.pc.ReadTail? || th.pc.ReadNext? || th.pc.CheckTail? || th.pc.LinkNode? || th.pc.HelpTail?)
      then Some(th.pc.nd) else None
  }

  function OwnedBy(threads: seq<Thread>): seq<Option<Ptr>> {
    seq(|threads|, i requires 0 <= i < |threads| => Own(threads[i]))
  }

  ghost predicate OwnOk(nodes: seq<Node>, c: seq<Ptr>, own: seq<Option<Ptr>>) {
    && (forall t :: 0 <= t < |own| && own[t].Some? ==>
        own[t].value < |nodes| && own[t].value !in c && nodes[own[t].value].next.ptr == None)
    && (forall t, u :: 0 <= t < u < |own| && own[t].Some? && own[u].Some? ==> own[t] != own[u])
  }

  ghost predicate ThreadsOk(nodes: seq<Node>, c: seq<Ptr>, h: nat, k: nat, threads: seq<Thread>) {
    forall t :: 0 <= t < |threads| ==> ThreadOk(nodes, c, h, k, threads[t])
  }

  ghost predicate Inv(s: State, c: seq<Ptr>, h: nat, k: nat) {
    && !s.fault
    && Shape(s.nodes, s.head, s.tail, c, h, k)
    && OwnOk(s.nodes, c, OwnedBy(s.threads))
    && ThreadsOk(s.nodes, c, h, k, s.threads)
  }

  // ---------------------------------------------------------------- the abstraction

  ghost function Contents(nodes: seq<Node>, c: seq<Ptr>, h: nat): seq<int>
    requires h < |c| && forall i :: 0 <= i < |c| ==> c[i] < |nodes|
  {
    seq(|c| - h - 1, i requires 0 <= i < |c| - h - 1 => nodes[c[h + 1 + i]].value)
  }

  function StatusOf(th: Thread): Status<Op, Res> {
    match th
    case Out => Idle
    case In(op, pc) =>
      match pc
      case SwingTail(_, _) => Done(op, Added)
      case Return(res) => Done(op, res)
      case _ => Pending(op)
  }

  function Statuses(threads: seq<Thread>): seq<Status<Op, Res>> {
    seq(|threads|, i requires 0 <= i < |threads| => StatusOf(threads[i]))
  }

  ghost function Abs(s: State, c: seq<Ptr>, h: nat): Atomic<seq<int>, Op, Res>
    requires h < |c| && forall i :: 0 <= i < |c| ==> c[i] < |s.nodes|
  {
    Atomic(Contents(s.nodes, c, h), Statuses(s.threads))
  }

  // ---------------------------------------------------------------- everything only grows

  /** The chain is extended, head and tail move on, and no value changes. */
  ghost predicate Grows(nodes: seq<Node>, c: seq<Ptr>, h: nat, k: nat, nodes': seq<Node>, c': seq<Ptr>, h': nat,
                        k': nat) {
    && c <= c' && h <= h' && k <= k' && |nodes| <= |nodes'|
    && forall p :: 0 <= p < |nodes| ==> nodes'[p].value == nodes[p].value
  }

  lemma ThreadStable(nodes: seq<Node>, c: seq<Ptr>, h: nat, k: nat, nodes': seq<Node>, c': seq<Ptr>, h': nat, k': nat,
                     th: Thread)
    requires Grows(nodes, c, h, k, nodes', c', h', k') && ThreadOk(nodes, c, h, k, th)
    ensures ThreadOk(nodes', c', h', k', th)
  {
    RefsStable(c, h, k, c', h', k');
  }

  lemma RefsStable(c: seq<Ptr>, h: nat, k: nat, c': seq<Ptr>, h': nat, k': nat)
    requires c <= c' && h <= h' && k <= k'
    ensures forall r :: Upto(c, r, h) ==> Upto(c', r, h')
    ensures forall r :: Upto(c, r, k) ==> Upto(c', r, k')
    ensures forall p, q :: After(c, p, q) ==> After(c', p, q)
    ensures forall p, q :: NotPast(c, p, q) ==> NotPast(c', p, q)
  {
    forall p, q | After(c, p, q) ensures After(c', p, q) {
      var i :| 0 <= i < |c| - 1 && c[i] == p.ptr.value && c[i + 1] == q.ptr.value;
      assert c'[i] == c[i] && c'[i + 1] == c[i + 1];
    }
    forall p, q | NotPast(c, p, q) ensures NotPast(c', p, q) {
      var i, j :| 0 <= i <= j < |c| && c[i] == p.ptr.value && c[j] == q.ptr.value;
      assert c'[i] == c[i] && c'[j] == c[j];
    }
  }

  lemma ThreadsStable(nodes: seq<Node>, c: seq<Ptr>, h: nat, k: nat, nodes': seq<Node>, c': seq<Ptr>, h': nat, k': nat,
                      threads: seq<Thread>)
    requires Grows(nodes, c, h, k, nodes', c', h', k') && ThreadsOk(nodes, c, h, k, threads)
    ensures ThreadsOk(nodes', c', h', k', threads)
  {
    forall t | 0 <= t < |threads| ensures ThreadOk(nodes', c', h', k', threads[t]) {
      ThreadStable(nodes, c, h, k, nodes', c', h', k', threads[t]);
    }
  }
}
