/**
 The elimination stack of All_Summer2017/testProject/data_structures/EliminationStack.h as a
 state machine. Every shared read, shared write and compare-and-set is one step. Nodes are never
 freed, so a node is its index in `nodes`; `slots` is `_elimination_ary`, of any size.
 */
module EliminationStack {
  import opened Linearizability
  import opened Options

  const NULL_VALUE: int := 0

  datatype Op = Push(v: int) | Pop
  datatype Res = Added | Took(v: int)

  /** The sequential object: a stack, top first; an empty stack answers `NULL_VALUE`. */
  function StackApply(st: seq<int>, op: Op): (seq<int>, Res) {
    match op
    case Push(v) => ([v] + st, Added)
    case Pop => if st == [] then (st, Took(NULL_VALUE)) else (st[1..], Took(st[0]))
  }

  type Ptr = nat

  datatype Node = Node(value: int, next: Option<Ptr>)

  /** Program points, named after the access that comes next. `i` counts the slots looked at and
      `at` is the slot to look at next. */
  datatype PC =
    | NewNode                                // add: allocate
    | ReadTop(nd: Ptr)                       // curr_top = _top
    | SetNext(nd: Ptr, curr: Option<Ptr>)    // nd->_next = curr_top
    | CasTop(nd: Ptr, curr: Option<Ptr>)     // CAS _top: curr_top to nd
    | ReadHint(nd: Ptr)                      // iCheck = _hint_last_waiter_index
    | ReadSlot(nd: Ptr, i: nat, at: nat)     // read the slot
    | PutSlot(nd: Ptr, i: nat, at: nat)      // CAS slot: null to nd
    | SetHint(nd: Ptr, at: nat)              // _hint_last_waiter_index = iCheck
    | TakeBack(nd: Ptr, at: nat)             // CAS slot: nd to null
    | QReadTop                               // remove: curr_top = _top
    | QReadNext(top: Ptr)                    // read curr_top->_next
    | QCasTop(top: Ptr, next: Option<Ptr>)   // CAS _top: curr_top to its next
    | QReadHint                              // iCheck = _hint_last_waiter_index
    | QReadSlot(i: nat, at: nat)             // read the slot
    | QGrab(i: nat, at: nat, nd: Ptr)        // CAS slot: node to null
    | QReadValue(nd: Ptr)                    // read its _value
    | Return(res: Res)

  datatype Thread = Out | In(op: Op, pc: PC)

  /** `fault` records an access outside the elimination array or to a node that does not exist. */
  datatype State = State(nodes: seq<Node>, top: Option<Ptr>, slots: seq<Option<Ptr>>, hint: nat, threads: seq<Thread>,
                         fault: bool, history: seq<Action<Op, Res>>)

  datatype Choice = Choice(t: nat, op: Op)

  /** The constructor, lines 43-49. */
  function Init(n: nat, size: nat): State {
    State([], None, seq(size, i => None), 0, seq(n, i => Out), false, [])
  }

  function Goto(s: State, t: nat, pc: PC): State
    requires t < |s.threads| && s.threads[t].In?
  {
    s.(threads := s.threads[t := In(s.threads[t].op, pc)])
  }

  function Fault(s: State): State { s.(fault := true) }

  /** The head of add's `for` loop, lines 62-75. */
  function Look(s: State, nd: Ptr, i: nat, at: nat): PC {
    if i < |s.slots| then ReadSlot(nd, i, at) else ReadTop(nd)
  }

  /** The head of remove's `for` loop, lines 92-101. */
  function QLook(s: State, i: nat, at: nat): PC {
    if i < |s.slots| then QReadSlot(i, at) else QReadTop
  }

  function After(s: State, at: nat): nat { if at + 1 >= |s.slots| then 0 else at + 1 }

  function Step(s: State, ch: Choice): (s': State)
    ensures |s'.threads| == |s.threads|
  {
    var t := ch.t;
    if t >= |s.threads| then s else
    match s.threads[t]
    case Out =>
      s.(threads := s.threads[t := In(ch.op, if ch.op.Push? then NewNode else QReadTop)],
        history := s.history + [Call(t, ch.op)])
    case In(op, pc) =>
      match pc
      case NewNode => Goto(s.(nodes := s.nodes + [Node(if op.Push? then op.v else NULL_VALUE, None)]), t,
        ReadTop(|s.nodes|))
      case ReadTop(nd) => Goto(s, t, SetNext(nd, s.top))
      case SetNext(nd, curr) =>
        if nd >= |s.nodes| then Fault(s) else Goto(s.(nodes := s.nodes[nd := s.nodes[nd].(next := curr)]), t,
          CasTop(nd, curr))
      case CasTop(nd, curr) =>
        if s.top == curr then Goto(s.(top := Some(nd)), t, Return(Added)) else Goto(s, t, ReadHint(nd))
      case ReadHint(nd) => Goto(s, t, Look(s, nd, 0, s.hint))
      case ReadSlot(nd, i, at) =>
        if at >= |s.slots| then Fault(s)
        else Goto(s, t, if s.slots[at].None? then PutSlot(nd, i, at) else Look(s, nd, i + 1, After(s, at)))
      case PutSlot(nd, i, at) =>
        if at >= |s.slots| then Fault(s)
        else if s.slots[at].None? then Goto(s.(slots := s.slots[at := Some(nd)]), t, SetHint(nd, at))
        else Goto(s, t, Look(s, nd, i + 1, After(s, at)))
      case SetHint(nd, at) => Goto(s.(hint := at), t, TakeBack(nd, at))
      case TakeBack(nd, at) =>
        if at >= |s.slots| then Fault(s)
        else if s.slots[at] == Some(nd) then Goto(s.(slots := s.slots[at := None]), t, ReadTop(nd))
        else Goto(s, t, Return(Added))
      case QReadTop => Goto(s, t, if s.top.None? then Return(Took(NULL_VALUE)) else QReadNext(s.top.value))
      case QReadNext(top) => if top >= |s.nodes| then Fault(s) else Goto(s, t, QCasTop(top, s.nodes[top].next))
      case QCasTop(top, next) =>
        if s.top == Some(top) then Goto(s.(top := next), t, QReadValue(top)) else Goto(s, t, QReadHint)
      case QReadHint => Goto(s, t, QLook(s, 0, s.hint))
      case QReadSlot(i, at) =>
        if at >= |s.slots| then Fault(s)
        else Goto(s, t, if s.slots[at].Some? then QGrab(i, at, s.slots[at].value) else QLook(s, i + 1, After(s, at)))
      case QGrab(i, at, nd) =>
        if at >= |s.slots| then Fault(s)
        else if s.slots[at] == Some(nd) then Goto(s.(slots := s.slots[at := None]), t, QReadValue(nd))
        else Goto(s, t, QLook(s, i + 1, After(s, at)))
      case QReadValue(nd) => if nd >= |s.nodes| then Fault(s) else Goto(s, t, Return(Took(s.nodes[nd].value)))
      case Return(res) => s.(threads := s.threads[t := Out], history := s.history + [Ret(t, res)])
  }

  function Run(n: nat, size: nat, sched: seq<Choice>): State {
    if sched == [] then Init(n, size) else Step(Run(n, size, sched[..|sched| - 1]), sched[|sched| - 1])
  }

  // ---------------------------------------------------------------- the invariant

  /** The node an unfinished push is responsible for, and the slot it has been put in, if any. */
  datatype Claim = Nothing | Holds(nd: Ptr) | Offers(nd: Ptr, at: nat)

  function ClaimOf(th: Thread): Claim {
    if th.Out? then Nothing else
    match th.pc
    case ReadTop(nd) => Holds(nd)
    case SetNext(nd, _) => Holds(nd)
    case CasTop(nd, _) => Holds(nd)
    case ReadHint(nd) => Holds(nd)
    case ReadSlot(nd, _, _) => Holds(nd)
    case PutSlot(nd, _, _) => Holds(nd)
    case SetHint(nd, at) => Offers(nd, at)
    case TakeBack(nd, at) => Offers(nd, at)
    case _ => Nothing
  }

  function Claims(threads: seq<Thread>): seq<Claim> {
    seq(|threads|, i requires 0 <= i < |threads| => ClaimOf(threads[i]))
  }

  /** `c` lists the stack's nodes from the top down. */
  ghost predicate Chain(nodes: seq<Node>, top: Option<Ptr>, c: seq<Ptr>) {
    && (forall i :: 0 <= i < |c| ==> c[i] < |nodes|)
    && (forall i, j :: 0 <= i < j < |c| ==> c[i] != c[j])
    && (forall i :: 0 <= i < |c| - 1 ==> nodes[c[i]].next == Some(c[i + 1]))
    && (c != [] ==> nodes[c[|c| - 1]].next == None)
    && top == if c == [] then None else Some(c[0])
  }

  /** Every node is in one place: claimed by one push, in the chain, or in neither (consumed); and a
      node in a slot is the one its push offers there. */
  ghost predicate Places(nodes: seq<Node>, slots: seq<Option<Ptr>>, c: seq<Ptr>, claims: seq<Claim>) {
    && (forall t :: 0 <= t < |claims| && claims[t] != Nothing ==> claims[t].nd < |nodes| && claims[t].nd !in c)
    && (forall t, u :: 0 <= t < u < |claims| && claims[t] != Nothing && claims[u] != Nothing ==>
       claims[t].nd != claims[u].nd)
    && (forall t :: 0 <= t < |claims| && claims[t].Offers? ==> claims[t].at < |slots|)
    && (forall i :: 0 <= i < |slots| && slots[i].Some? ==>
          exists t :: 0 <= t < |claims| && claims[t] == Offers(slots[i].value, i))
  }

  /** `p` has been pushed or eliminated: no push will write to it again. */
  ghost predicate Published(nodes: seq<Node>, claims: seq<Claim>, p: Ptr) {
    p < |nodes| && forall t :: 0 <= t < |claims| && claims[t] != Nothing ==> claims[t].nd != p
  }

  ghost predicate ThreadOk(nodes: seq<Node>, size: nat, claims: seq<Claim>, th: Thread) {
    && (th.In? && ClaimOf(th) != Nothing ==>
        th.op.Push? && ClaimOf(th).nd < |nodes| && nodes[ClaimOf(th).nd].value == th.op.v)
    && match th
       case Out => true
       case In(op, pc) =>
         match pc
         case NewNode => op.Push?
         case CasTop(nd, curr) => nd < |nodes| && nodes[nd].next == curr
         case ReadSlot(_, _, at) => at < size
         case PutSlot(_, _, at) => at < size
         case SetHint(_, at) => at < size
         case TakeBack(_, at) => at < size
         case QReadTop => op.Pop?
         case QReadNext(top) => op.Pop? && Published(nodes, claims, top)
         case QCasTop(top, next) => op.Pop? && Published(nodes, claims, top) && nodes[top].next == next
         case QReadHint => op.Pop?
         case QReadSlot(_, at) => op.Pop? && at < size
         case QGrab(_, at, _) => op.Pop? && at < size
         case QReadValue(nd) => op.Pop? && nd < |nodes|
         case _ => true
  }

  ghost predicate ThreadsOk(nodes: seq<Node>, size: nat, claims: seq<Claim>, threads: seq<Thread>) {
    forall t :: 0 <= t < |threads| ==> ThreadOk(nodes, size, claims, threads[t])
  }

  ghost predicate Inv(s: State, c: seq<Ptr>) {
    && !s.fault
    && Chain(s.nodes, s.top, c)
    && Places(s.nodes, s.slots, c, Claims(s.threads))
    && ThreadsOk(s.nodes, |s.slots|, Claims(s.threads), s.threads)
    && (|s.slots| > 0 ==> s.hint < |s.slots|)
  }

  // ---------------------------------------------------------------- the abstraction

  function Values(nodes: seq<Node>, c: seq<Ptr>): seq<int>
    requires forall i :: 0 <= i < |c| ==> c[i] < |nodes|
  {
    seq(|c|, i requires 0 <= i < |c| => nodes[c[i]].value)
  }

  /** A push that has offered its node is done as soon as the node has left the slot. */
  function StatusOf(nodes: seq<Node>, slots: seq<Option<Ptr>>, th: Thread): Status<Op, Res> {
    match th
    case Out => Idle
    case In(op, pc) =>
      match pc
      case SetHint(nd, at) => if at < |slots| && slots[at] == Some(nd) then Pending(op) else Done(op, Added)
      case TakeBack(nd, at) => if at < |slots| && slots[at] == Some(nd) then Pending(op) else Done(op, Added)
      case QReadValue(nd) => Done(op, Took(if nd < |nodes| then nodes[nd].value else NULL_VALUE))
      case Return(res) => Done(op, res)
      case _ => Pending(op)
  }

  function Statuses(nodes: seq<Node>, slots: seq<Option<Ptr>>, threads: seq<Thread>): seq<Status<Op, Res>> {
    seq(|threads|, i requires 0 <= i < |threads| => StatusOf(nodes, slots, threads[i]))
  }

  ghost function Abs(s: State, c: seq<Ptr>): Atomic<seq<int>, Op, Res>
    requires Chain(s.nodes, s.top, c)
  {
    Atomic(Values(s.nodes, c), Statuses(s.nodes, s.slots, s.threads))
  }
}
