/**
 The fine-grained locked list of host/gen_multi/FGLockLinkedList.h as a state machine.

 Every lock, unlock, shared read, shared write, allocation and deletion is one step. Any number
 of threads run, in any order; `Run` follows a schedule that names, at each step, the thread to
 move, the operation it starts if it is idle, and the address `new` would give it. A schedule
 entry that cannot be followed (a mutex that is taken, an address in use) leaves the state alone.
 */
module HandOverHandList {
  import opened Linearizability
  import opened Options

  datatype Op = Contains(x: nat) | Insert(x: nat) | Remove(x: nat)

  /** The sequential object: a set of keys. */
  function SetApply(s: set<nat>, op: Op): (set<nat>, bool) {
    match op
    case Contains(x) => (s, x in s)
    case Insert(x) => (s + {x}, x !in s)
    case Remove(x) => (s - {x}, x in s)
  }

  type Ptr = nat
  const HEAD: Ptr := 0
  const TAIL: Ptr := 1

  datatype Node = Node(data: nat, next: Option<Ptr>, lock: Option<nat>)

  /** Program points, named after the access that comes next. */
  datatype PC =
    | Start                                        // lock head
    | First                                        // curr = head->next
    | Wait(pred: Ptr, curr: Ptr)                   // lock curr
    | Drop(pred: Ptr, curr: Ptr)                   // contains: unlock pred
    | Test(pred: Ptr, curr: Ptr)                   // compare curr with tail, x with curr->data
    | Release(pred: Ptr, curr: Ptr)                // add, remove: unlock pred, going on
    | Advance(curr: Ptr)                           // pred = curr; curr = curr->next
    | Alloc(pred: Ptr, curr: Ptr)                  // add: node1 = new Node
    | Link(pred: Ptr, curr: Ptr, node: Ptr)        // add: pred->next = node1
    | ReadNext(pred: Ptr, curr: Ptr)               // remove: read curr->next
    | Unlink(pred: Ptr, curr: Ptr, succ: Ptr)      // remove: pred->next = succ
    | UnlockRemoved(pred: Ptr, curr: Ptr)          // remove: unlock curr
    | Free(pred: Ptr, curr: Ptr)                   // remove: destroy and delete curr
    | UnlockBoth(pred: Ptr, curr: Ptr, res: bool)  // unlock pred, then curr
    | UnlockLast(curr: Ptr, res: bool)             // unlock the one lock left
    | Return(res: bool)

  datatype Thread = Out | In(op: Op, pc: PC)

  /** `fault` records an access to a node that is not allocated, an unlock by a thread that
      does not hold the mutex, or the destruction of a locked mutex. */
  datatype State = State(heap: map<Ptr, Node>, threads: seq<Thread>, fault: bool, history: seq<Action<Op, bool>>)

  datatype Choice = Choice(t: nat, op: Op, addr: Ptr)

  /** The constructor, lines 36-48: head (key 0) and tail (key UINT32_MAX), both unlocked. */
  function Init(n: nat): State {
    State(map[HEAD := Node(0, Some(TAIL), None), TAIL := Node(0xFFFF_FFFF, None, None)], seq(n, i => Out), false, [])
  }

  function Goto(s: State, t: nat, pc: PC): State
    requires t < |s.threads| && s.threads[t].In?
  {
    s.(threads := s.threads[t := In(s.threads[t].op, pc)])
  }

  function Fault(s: State): State { s.(fault := true) }

  function LockNode(s: State, t: nat, p: Ptr, pc: PC): State
    requires t < |s.threads| && s.threads[t].In?
  {
    if p !in s.heap then Fault(s)
    else if s.heap[p].lock.Some? then s
    else Goto(s.(heap := s.heap[p := s.heap[p].(lock := Some(t))]), t, pc)
  }

  function UnlockNode(s: State, t: nat, p: Ptr, pc: PC): State
    requires t < |s.threads| && s.threads[t].In?
  {
    if p !in s.heap || s.heap[p].lock != Some(t) then Fault(s)
    else Goto(s.(heap := s.heap[p := s.heap[p].(lock := None)]), t, pc)
  }

  /** The outcome of comparing at `Test`, once curr->data has been read. */
  function Decide(op: Op, pred: Ptr, curr: Ptr, data: nat): PC {
    match op
    case Contains(x) =>
      if curr == TAIL || x < data then UnlockLast(curr, false)
      else if data == x then UnlockLast(curr, true)
      else Advance(curr)
    case Insert(x) =>
      if curr == TAIL || x < data then Alloc(pred, curr)
      else if x == data then UnlockBoth(pred, curr, false)
      else Release(pred, curr)
    case Remove(x) =>
      if curr == TAIL || x < data then UnlockBoth(pred, curr, false)
      else if x == data then ReadNext(pred, curr)
      else Release(pred, curr)
  }

  function Step(s: State, ch: Choice): State {
    var t := ch.t;
    if t >= |s.threads| then s else
    match s.threads[t]
    case Out => s.(threads := s.threads[t := In(ch.op, Start)], history := s.history + [Call(t, ch.op)])
    case In(op, pc) =>
      match pc
      case Start => LockNode(s, t, HEAD, First)
      case First =>
        if HEAD !in s.heap || s.heap[HEAD].next.None? then Fault(s)
        else Goto(s, t, Wait(HEAD, s.heap[HEAD].next.value))
      case Wait(pred, curr) => LockNode(s, t, curr, if op.Contains? then Drop(pred, curr) else Test(pred, curr))
      case Drop(pred, curr) => UnlockNode(s, t, pred, Test(pred, curr))
      case Test(pred, curr) =>
        if curr !in s.heap then Fault(s) else Goto(s, t, Decide(op, pred, curr, s.heap[curr].data))
      case Release(pred, curr) => UnlockNode(s, t, pred, Advance(curr))
      case Advance(curr) =>
        if curr !in s.heap || s.heap[curr].next.None? then Fault(s)
        else Goto(s, t, Wait(curr, s.heap[curr].next.value))
      case Alloc(pred, curr) =>
        if ch.addr in s.heap then s
        else Goto(s.(heap := s.heap[ch.addr := Node(op.x, Some(curr), None)]), t, Link(pred, curr, ch.addr))
      case Link(pred, curr, node) =>
        if pred !in s.heap then Fault(s)
        else Goto(s.(heap := s.heap[pred := s.heap[pred].(next := Some(node))]), t, UnlockBoth(pred, curr, true))
      case ReadNext(pred, curr) =>
        if curr !in s.heap || s.heap[curr].next.None? then Fault(s)
        else Goto(s, t, Unlink(pred, curr, s.heap[curr].next.value))
      case Unlink(pred, curr, succ) =>
        if pred !in s.heap then Fault(s)
        else Goto(s.(heap := s.heap[pred := s.heap[pred].(next := Some(succ))]), t, UnlockRemoved(pred, curr))
      case UnlockRemoved(pred, curr) => UnlockNode(s, t, curr, Free(pred, curr))
      case Free(pred, curr) =>
        if curr !in s.heap || s.heap[curr].lock.Some? then Fault(s)
        else Goto(s.(heap := s.heap - {curr}), t, UnlockLast(pred, true))
      case UnlockBoth(pred, curr, res) => UnlockNode(s, t, pred, UnlockLast(curr, res))
      case UnlockLast(curr, res) => UnlockNode(s, t, curr, Return(res))
      case Return(res) => s.(threads := s.threads[t := Out], history := s.history + [Ret(t, res)])
  }

  /** The state after following a whole schedule. */
  function Run(n: nat, sched: seq<Choice>): State {
    if sched == [] then Init(n) else Step(Run(n, sched[..|sched| - 1]), sched[|sched| - 1])
  }

  // ---------------------------------------------------------------- the invariant

  /** The mutexes a thread holds at a program point. */
  function Held(th: Thread): set<Ptr> {
    match th
    case Out => {}
    case In(op, pc) =>
      match pc
      case Start => {}
      case First => {HEAD}
      case Wait(pred, _) => {pred}
      case Test(pred, curr) => if op.Contains? then {curr} else {pred, curr}
      case Advance(curr) => {curr}
      case Free(pred, _) => {pred}
      case UnlockLast(curr, _) => {curr}
      case Return(_) => {}
      case _ => {pc.pred, pc.curr}
  }

  /** Nodes only this thread can reach: allocated and not yet linked, or unlinked and not yet deleted. */
  function Private(th: Thread): set<Ptr> {
    if th.In? && th.pc.Link? then {th.pc.node}
    else if th.In? && (th.pc.UnlockRemoved? || th.pc.Free?) then {th.pc.curr}
    else {}
  }

  /** `c` lists the nodes from head to tail; the keys strictly between them are strictly sorted. */
  ghost predicate Chain(heap: map<Ptr, Node>, c: seq<Ptr>) {
    && |c| >= 2 && c[0] == HEAD && c[|c| - 1] == TAIL
    && (forall i :: 0 <= i < |c| ==> c[i] in heap)
    && (forall i, j :: 0 <= i < j < |c| ==> c[i] != c[j])
    && (forall i :: 0 <= i < |c| - 1 ==> heap[c[i]].next == Some(c[i + 1]))
    && (forall i, j :: 0 < i < j < |c| - 1 ==> heap[c[i]].data < heap[c[j]].data)
  }

  /** Every interior key before `curr` is smaller than `x`. */
  ghost predicate AllBelow(heap: map<Ptr, Node>, c: seq<Ptr>, curr: Ptr, x: nat)
    requires Chain(heap, c)
  {
    forall i, j :: 0 < i < j < |c| && c[j] == curr ==> heap[c[i]].data < x
  }

  /** `pred` precedes `curr` and every position for `x` lies after `pred`. */
  ghost predicate Between(heap: map<Ptr, Node>, c: seq<Ptr>, pred: Ptr, curr: Ptr, x: nat)
    requires Chain(heap, c)
  {
    && pred in c && pred != TAIL && heap[pred].next == Some(curr)
    && (pred == HEAD || heap[pred].data < x)
  }

  ghost predicate At(heap: map<Ptr, Node>, c: seq<Ptr>, p: Ptr)
    requires Chain(heap, c)
  {
    p in c && p != HEAD && p != TAIL
  }

  ghost predicate ThreadOk(heap: map<Ptr, Node>, c: seq<Ptr>, th: Thread)
    requires Chain(heap, c)
  {
    match th
    case Out => true
    case In(op, pc) =>
      match pc
      case Start => true
      case First => true
      case Wait(pred, curr) => Between(heap, c, pred, curr, op.x)
      case Drop(pred, curr) => op.Contains? && Between(heap, c, pred, curr, op.x)
      case Test(pred, curr) =>
        if op.Contains? then curr in c && curr != HEAD && AllBelow(heap, c, curr, op.x)
        else Between(heap, c, pred, curr, op.x)
      case Release(pred, curr) => !op.Contains? && Between(heap, c, pred, curr, op.x) && At(heap, c, curr)
        && heap[curr].data < op.x
      case Advance(curr) => At(heap, c, curr) && heap[curr].data < op.x
      case Alloc(pred, curr) => op.Insert? && Between(heap, c, pred, curr, op.x)
        && (curr == TAIL || (curr in heap && op.x < heap[curr].data))
      case Link(pred, curr, node) =>
        && op.Insert? && Between(heap, c, pred, curr, op.x) && (curr == TAIL
           || (curr in heap && op.x < heap[curr].data))
        && node !in c && node in heap && heap[node].data == op.x && heap[node].next == Some(curr)
      case ReadNext(pred, curr) => op.Remove? && Between(heap, c, pred, curr, op.x) && At(heap, c, curr)
        && heap[curr].data == op.x
      case Unlink(pred, curr, succ) =>
        && op.Remove? && Between(heap, c, pred, curr, op.x) && At(heap, c, curr) && heap[curr].data == op.x
        && heap[curr].next == Some(succ)
      case UnlockRemoved(pred, curr) => op.Remove? && pred != curr && curr !in c && curr in heap
      case Free(pred, curr) => op.Remove? && pred != curr && curr !in c && curr in heap
      case UnlockBoth(pred, curr, _) => !op.Contains? && pred != curr
      case UnlockLast(_, _) => true
      case Return(_) => true
  }

  function HeldBy(threads: seq<Thread>): seq<set<Ptr>> {
    seq(|threads|, i requires 0 <= i < |threads| => Held(threads[i]))
  }

  function PrivateTo(threads: seq<Thread>): seq<set<Ptr>> {
    seq(|threads|, i requires 0 <= i < |threads| => Private(threads[i]))
  }

  /** A mutex is owned by `t` exactly when `t`'s program point says so. */
  ghost predicate LocksOk(heap: map<Ptr, Node>, held: seq<set<Ptr>>) {
    && (forall p :: p in heap && heap[p].lock.Some? ==> heap[p].lock.value < |held| && p in held[heap[p].lock.value])
    && (forall t, p :: 0 <= t < |held| && p in held[t] ==> p in heap && heap[p].lock == Some(t))
  }

  /** A private node is allocated, off the chain, and known to no other thread. */
  ghost predicate PrivateOk(heap: map<Ptr, Node>, c: seq<Ptr>, held: seq<set<Ptr>>, priv: seq<set<Ptr>>) {
    && |held| == |priv|
    && (forall t, p :: 0 <= t < |priv| && p in priv[t] ==> p in heap && p !in c)
    && (forall t, u, p :: 0 <= t < |priv| && 0 <= u < |priv| && t != u && p in priv[t] ==>
          p !in held[u] && p !in priv[u])
  }

  ghost predicate ThreadsOk(heap: map<Ptr, Node>, c: seq<Ptr>, threads: seq<Thread>)
    requires Chain(heap, c)
  {
    forall t :: 0 <= t < |threads| ==> ThreadOk(heap, c, threads[t])
  }

  ghost predicate Inv(s: State, c: seq<Ptr>) {
    && !s.fault
    && Chain(s.heap, c)
    && LocksOk(s.heap, HeldBy(s.threads))
    && PrivateOk(s.heap, c, HeldBy(s.threads), PrivateTo(s.threads))
    && ThreadsOk(s.heap, c, s.threads)
  }

  // ---------------------------------------------------------------- the abstraction

  ghost function Keys(heap: map<Ptr, Node>, c: seq<Ptr>): set<nat>
    requires Chain(heap, c)
  {
    set i | 0 < i < |c| - 1 :: heap[c[i]].data
  }

  function StatusOf(th: Thread): Status<Op, bool> {
    match th
    case Out => Idle
    case In(op, pc) =>
      match pc
      case UnlockRemoved(_, _) => Done(op, true)
      case Free(_, _) => Done(op, true)
      case UnlockBoth(_, _, res) => Done(op, res)
      case UnlockLast(_, res) => Done(op, res)
      case Return(res) => Done(op, res)
      case _ => Pending(op)
  }

  function Statuses(threads: seq<Thread>): seq<Status<Op, bool>> {
    seq(|threads|, i requires 0 <= i < |threads| => StatusOf(threads[i]))
  }

  ghost function Abs(s: State, c: seq<Ptr>): Atomic<set<nat>, Op, bool>
    requires Chain(s.heap, c)
  {
    Atomic(Keys(s.heap, c), Statuses(s.threads))
  }

  // ---------------------------------------------------------------- interference

  /** What a step of another thread leaves alone, for a thread that holds `held` and owns `priv`. */
  ghost predicate Frame(heap: map<Ptr, Node>, c: seq<Ptr>, heap': map<Ptr, Node>, c': seq<Ptr>, held: set<Ptr>,
                        priv: set<Ptr>)
    requires Chain(heap, c) && Chain(heap', c')
  {
    && (forall p :: p in held || p in priv ==>
        p in heap && p in heap' && heap'[p].next == heap[p].next && heap'[p].data == heap[p].data
          && (p in c <==> p in c'))
    && (forall p, x :: p in held && p in c && AllBelow(heap, c, p, x) ==> AllBelow(heap', c', p, x))
  }

  lemma Undisturbed(heap: map<Ptr, Node>, c: seq<Ptr>, heap': map<Ptr, Node>, c': seq<Ptr>, th: Thread)
    requires Chain(heap, c) && Chain(heap', c')
    requires ThreadOk(heap, c, th) && Frame(heap, c, heap', c', Held(th), Private(th))
    ensures ThreadOk(heap', c', th)
  {
  }

  lemma OthersUndisturbed(heap: map<Ptr, Node>, c: seq<Ptr>, heap': map<Ptr, Node>, c': seq<Ptr>, threads: seq<Thread>,
                          t: nat, th: Thread)
    requires Chain(heap, c) && Chain(heap', c') && t < |threads|
    requires ThreadsOk(heap, c, threads)
    requires forall u :: 0 <= u < |threads| && u != t ==> Frame(heap, c, heap', c', HeldBy(threads)[u],
      PrivateTo(threads)[u])
    requires ThreadOk(heap', c', th)
    ensures ThreadsOk(heap', c', threads[t := th])
  {
    var threads' := threads[t := th];
    forall u | 0 <= u < |threads'| ensures ThreadOk(heap', c', threads'[u]) {
      if u != t {
        assert HeldBy(threads)[u] == Held(threads[u]) && PrivateTo(threads)[u] == Private(threads[u]);
        Undisturbed(heap, c, heap', c', threads[u]);
      }
    }
  }
}
