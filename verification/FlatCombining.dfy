/**
 Flat combining, All_Summer2017/testProject/data_structures/FCPairingHeap.h and FCQueue.h, over the slot list and
 the combiner lock of ITest.h: the protocol by which threads hand their operations to whichever of them holds the
 lock, as a state machine. What the combiner serves requests with is a parameter.

 Every shared read, write and compare-and-set is one step, except that the operation on the combined object goes
 with the write of its answer: the object is touched only by the holder of the combiner lock (`OneCombiner`), so
 the answer is all that other threads can see of it. A thread allocates one slot, ever, so the slot of thread `t`
 is called `t + 1`; slot 0 is the dummy that ends the list.
 */
module FlatCombining {
  import opened Linearizability
  import opened Options
  import opened Slots

  function RequestOf(op: Op): int {
    match op
    case Add(v) => v
    case Remove => DEQ_VALUE
  }

  function OpAt(x: int): Op { if x > NULL_VALUE then Add(x) else Remove }

  /** The values the slot encoding can carry in both directions. */
  predicate Good(v: int) { 0 < v <= INT_MAX && v != -DEQ_VALUE }

  predicate GoodOp(op: Op) { op.Add? ==> Good(op.v) }

  datatype Slot = Slot(reqAns: int, next: Option<nat>)

  /** Program points, named after the access that comes next. `posted` tells `enq_slot` from `get_new_slot`. */
  datatype PC =
    | NewSlot                                                        // new SlotInfo()
    | ReadTail(posted: bool)                                         // curr_tail = _tail_slot
    | WriteNext(tail: nat, posted: bool)                             // my_slot->_next = curr_tail
    | CasTail(tail: nat, posted: bool)                               // CAS _tail_slot: curr_tail to my_slot
    | Post                                                           // my_re_ans = request
    | CheckNext                                                      // null == my_next ?
    | ReadLock(k: nat)                                               // lock_fc: 0 == lock, read number k
    | CasLock                                                        // lock_fc: CAS lock: 0 to 0xFF
    | StartTry(i: nat)                                               // iTry < _NUM_REP, curr_slot = _tail_slot
    | ScanNext(i: nat, changes: nat, curr: nat)                      // null != curr_slot->_next ?
    | ScanRead(i: nat, changes: nat, curr: nat)                      // curr_value = curr_slot->_req_ans
    | Serve(i: nat, changes: nat, curr: nat, value: int)             // the operation, curr_slot->_req_ans = answer
    | Advance(i: nat, changes: nat, curr: nat)                       // curr_slot = curr_slot->_next
    | Unlock                                                         // lock = 0
    | WaitAns                                                        // is my_re_ans still the request ?
    | WaitLock                                                       // 0 != lock ?
    | Recheck                                                        // my_re_ans after waiting
    | ReadAns                                                        // return -(my_re_ans)

  datatype Thread = Out(hasSlot: bool) | In(op: Op, pc: PC)

  /** The combined object: what it is at first, what a request does to it and answers, what the end of a pass does to
      it, and how many scans a pass of `n` threads may make. No answer: the combiner looks at the slot once more. */
  datatype Service<!S> = Service(first: S, serve: (S, int) -> (S, Option<int>), leave: S -> S, reps: nat -> nat)

  /** `fault` records the dereference of a pointer that is not a slot. */
  datatype State<+S> = State(slots: seq<Slot>, tail: nat, lock: bool, obj: S, threads: seq<Thread>, fault: bool,
                             history: seq<Action<Op, int>>)

  datatype Choice = Choice(t: nat, op: Op)

  function Init<S>(k: Service<S>, n: nat): State<S> {
    State(seq(n + 1, i => Slot(NULL_VALUE, None)), 0, false, k.first, seq(n, i => Out(false)), false, [])
  }

  /** ceil(_NUM_THREADS / 1.7) */
  function Threshold<S>(s: State<S>): nat { (10 * |s.threads| + 16) / 17 }

  function Goto<S>(s: State<S>, t: nat, pc: PC): State<S>
    requires t < |s.threads| && s.threads[t].In?
  {
    s.(threads := s.threads[t := In(s.threads[t].op, pc)])
  }

  /** An `add` answers true, written 0 here. */
  function Return<S>(s: State<S>, t: nat, res: int): State<S>
    requires t < |s.threads|
  {
    s.(threads := s.threads[t := Out(true)], history := s.history + [Ret(t, res)])
  }

  function Answered(op: Op, x: int): bool { if op.Add? then x == NULL_VALUE else x != DEQ_VALUE }

  function Step<S>(k: Service<S>, s: State<S>, ch: Choice): (s': State<S>)
    ensures |s'.threads| == |s.threads|
  {
    var t := ch.t;
    if t >= |s.threads| then s else
    match s.threads[t]
    case Out(has) =>
      s.(threads := s.threads[t := In(ch.op, if has then Post else NewSlot)], history := s.history + [Call(t, ch.op)])
    case In(op, pc) =>
      if t + 1 >= |s.slots| then s.(fault := true) else
      var mine := s.slots[t + 1];
      match pc
      case NewSlot => Goto(s.(slots := s.slots[t + 1 := Slot(NULL_VALUE, None)]), t, ReadTail(false))
      case ReadTail(posted) => Goto(s, t, WriteNext(s.tail, posted))
      case WriteNext(tail, posted) =>
        Goto(s.(slots := s.slots[t + 1 := mine.(next := Some(tail))]), t, CasTail(tail, posted))
      case CasTail(tail, posted) =>
        if s.tail == tail then Goto(s.(tail := t + 1), t, if posted then ReadLock(0) else Post)
          else Goto(s, t, ReadTail(posted))
      case Post => Goto(s.(slots := s.slots[t + 1 := mine.(reqAns := RequestOf(op))]), t, CheckNext)
      case CheckNext => Goto(s, t, if mine.next.None? then ReadTail(true) else ReadLock(0))
      case ReadLock(j) => Goto(s, t, if s.lock then WaitAns else if j < 2 then ReadLock(j + 1) else CasLock)
      case CasLock => if s.lock then Goto(s, t, WaitAns) else Goto(s.(lock := true), t, StartTry(0))
      case StartTry(i) => Goto(s, t, if i < k.reps(|s.threads|) then ScanNext(i, 0, s.tail) else Unlock)
      case ScanNext(i, n, curr) =>
        if curr >= |s.slots| then s.(fault := true)
        else if s.slots[curr].next.Some? then Goto(s, t, ScanRead(i, n, curr))
        else Goto(s, t, if n < Threshold(s) then Unlock else StartTry(i + 1))
      case ScanRead(i, n, curr) =>
        if curr >= |s.slots| then s.(fault := true)
        else if IsRequest(s.slots[curr].reqAns) then Goto(s, t, Serve(i, n + 1, curr, s.slots[curr].reqAns))
        else Goto(s, t, Advance(i, n, curr))
      case Serve(i, n, curr, value) =>
        if curr >= |s.slots| then s.(fault := true) else
        var (obj, answer) := k.serve(s.obj, value);
        if answer.None? then Goto(s.(obj := obj), t, ScanNext(i, n, curr))
        else Goto(s.(obj := obj, slots := s.slots[curr := s.slots[curr].(reqAns := -answer.value)]), t,
                  Advance(i, n, curr))
      case Advance(i, n, curr) =>
        if curr >= |s.slots| || s.slots[curr].next.None? then s.(fault := true)
          else Goto(s, t, ScanNext(i, n, s.slots[curr].next.value))
      case Unlock =>
        var free := s.(lock := false, obj := k.leave(s.obj));
        if op.Add? then Return(free, t, 0) else Goto(free, t, ReadAns)
      case WaitAns => Goto(s, t, if Answered(op, mine.reqAns) then Recheck else WaitLock)
      case WaitLock => Goto(s, t, if s.lock then WaitAns else Recheck)
      case Recheck =>
        if !Answered(op, mine.reqAns) then Goto(s, t, CheckNext) else if op.Add? then Return(s, t, 0)
          else Goto(s, t, ReadAns)
      case ReadAns => Return(s, t, -mine.reqAns)
  }

  function Run<S>(k: Service<S>, n: nat, sched: seq<Choice>): State<S> {
    if sched == [] then Init(k, n) else Step(k, Run(k, n, sched[..|sched| - 1]), sched[|sched| - 1])
  }

  // ---------------------------------------------------------------- the invariant

  /** `c` lists the linked slots, oldest first: the list that starts at `tail` is `c` backwards. */
  ghost predicate Chain(slots: seq<Slot>, tail: nat, c: seq<nat>) {
    && |c| > 0 && c[0] == 0 && tail == c[|c| - 1]
    && (forall i :: 0 <= i < |c| ==> c[i] < |slots|)
    && (forall i, j :: 0 <= i < j < |c| ==> c[i] != c[j])
    && slots[0].next.None?
    && (forall i :: 0 < i < |c| ==> slots[c[i]].next == Some(c[i - 1]))
  }

  /** A scan that is at `q` still has `p` before it. */
  ghost predicate Ahead(c: seq<nat>, p: nat, q: nat) {
    exists i, j :: 0 <= i <= j < |c| && c[i] == p && c[j] == q
  }

  predicate Served(op: Op, x: int) { !IsRequest(x) && (op.Add? ==> x == NULL_VALUE) }

  predicate Mine(op: Op, x: int) { x == RequestOf(op) || Served(op, x) }

  /** The combiner's own request is served, or lies ahead in its first scan. */
  ghost predicate Covered(c: seq<nat>, p: nat, op: Op, x: int, i: nat, curr: nat) {
    curr in c && (Served(op, x) || (i == 0 && x == RequestOf(op) && Ahead(c, p, curr)))
  }

  ghost predicate PcOk(slots: seq<Slot>, c: seq<nat>, p: nat, op: Op, pc: PC)
    requires p < |slots| && forall i :: 0 <= i < |c| ==> c[i] < |slots|
  {
    var x := slots[p].reqAns;
    match pc
    case NewSlot => p !in c && !IsRequest(x)
    case ReadTail(posted) => !posted && p !in c && !IsRequest(x)
    case WriteNext(tail, posted) => !posted && p !in c && !IsRequest(x)
    case CasTail(tail, posted) => !posted && p !in c && !IsRequest(x) && slots[p].next == Some(tail)
    case Post => p in c && !IsRequest(x)
    case StartTry(i) => p in c && Mine(op, x) && (i > 0 ==> Served(op, x))
    case ScanNext(i, n, curr) => p in c && Covered(c, p, op, x, i, curr)
    case ScanRead(i, n, curr) => p in c && Covered(c, p, op, x, i, curr) && curr != 0
    case Serve(i, n, curr, value) =>
      p in c && Covered(c, p, op, x, i, curr) && curr != 0 && curr < |slots| && slots[curr].reqAns == value
        && IsRequest(value)
    case Advance(i, n, curr) => p in c && Covered(c, p, op, x, i, curr) && curr != 0 && (Served(op, x) || p != curr)
    case Unlock => p in c && Served(op, x)
    case ReadAns => p in c && Served(op, x) && op.Remove?
    case _ => p in c && Mine(op, x)
  }

  ghost predicate ThreadOk(slots: seq<Slot>, c: seq<nat>, p: nat, th: Thread)
    requires p < |slots| && forall i :: 0 <= i < |c| ==> c[i] < |slots|
  {
    match th
    case Out(has) => (has <==> p in c) && !IsRequest(slots[p].reqAns)
    case In(op, pc) => GoodOp(op) && PcOk(slots, c, p, op, pc)
  }

  predicate Combining(th: Thread) {
    th.In? && (th.pc.StartTry? || th.pc.ScanNext? || th.pc.ScanRead? || th.pc.Serve? || th.pc.Advance? || th.pc.Unlock?)
  }

  /** The lock is held exactly while one thread combines. */
  ghost predicate LockOk(lock: bool, threads: seq<Thread>) {
    && (forall t, u :: 0 <= t < u < |threads| ==> !Combining(threads[t]) || !Combining(threads[u]))
    && (lock <==> exists t :: 0 <= t < |threads| && Combining(threads[t]))
  }

  ghost predicate ThreadsOk(slots: seq<Slot>, c: seq<nat>, threads: seq<Thread>)
    requires |slots| == |threads| + 1 && forall i :: 0 <= i < |c| ==> c[i] < |slots|
  {
    forall t :: 0 <= t < |threads| ==> ThreadOk(slots, c, t + 1, threads[t])
  }

  ghost predicate Inv<S>(s: State<S>, c: seq<nat>) {
    && !s.fault && |s.slots| == |s.threads| + 1
    && Chain(s.slots, s.tail, c)
    && s.slots[0].reqAns == NULL_VALUE
    && ThreadsOk(s.slots, c, s.threads)
    && LockOk(s.lock, s.threads)
  }

  // ---------------------------------------------------------------- the abstraction

  predicate Posted(pc: PC) {
    !(pc.NewSlot? || pc.Post? || ((pc.ReadTail? || pc.WriteNext? || pc.CasTail?) && !pc.posted))
  }

  /** A posted request has taken effect when the slot no longer holds it. */
  function StatusOf(th: Thread, x: int): Status<Op, int> {
    match th
    case Out(_) => Idle
    case In(op, pc) => if !Posted(pc) || x == RequestOf(op) then Pending(op) else Done(op, -x)
  }

  ghost function Statuses(slots: seq<Slot>, threads: seq<Thread>): (r: seq<Status<Op, int>>)
    requires |slots| == |threads| + 1
    ensures |r| == |threads|
  {
    seq(|threads|, t requires 0 <= t < |threads| => StatusOf(threads[t], slots[t + 1].reqAns))
  }

  /** The atomic object with contents `v`, as far as its callers have come. */
  ghost function Abs<S, V>(v: V, s: State<S>): Atomic<V, Op, int>
    requires |s.slots| == |s.threads| + 1
  {
    Atomic(v, Statuses(s.slots, s.threads))
  }

  // ---------------------------------------------------------------- the slot list

  lemma AheadSelf(c: seq<nat>, p: nat)
    requires |c| > 0 && p in c
    ensures Ahead(c, p, c[|c| - 1])
  {
    var i :| 0 <= i < |c| && c[i] == p;
  }

  /** One step down the list passes only the slot it leaves. */
  lemma AheadNext(slots: seq<Slot>, tail: nat, c: seq<nat>, p: nat, q: nat)
    requires Chain(slots, tail, c) && Ahead(c, p, q) && p != q
    ensures q < |slots| && slots[q].next.Some? && Ahead(c, p, slots[q].next.value)
  {
    var i, j :| 0 <= i <= j < |c| && c[i] == p && c[j] == q;
    assert slots[c[j]].next == Some(c[j - 1]);
  }

  lemma NextInChain(slots: seq<Slot>, tail: nat, c: seq<nat>, q: nat)
    requires Chain(slots, tail, c) && q in c
    ensures q < |slots| && (q != 0 ==> slots[q].next.Some? && slots[q].next.value in c)
    ensures slots[q].next.None? ==> q == 0
  {
    var j :| 0 <= j < |c| && c[j] == q;
    if j > 0 { assert slots[c[j]].next == Some(c[j - 1]); }
  }

  /** At the end of the list nothing but the dummy is ahead. */
  lemma AheadEnd(slots: seq<Slot>, tail: nat, c: seq<nat>, p: nat)
    requires Chain(slots, tail, c)
    ensures Ahead(c, p, 0) ==> p == 0
  {
    if Ahead(c, p, 0) {
      var i, j :| 0 <= i <= j < |c| && c[i] == p && c[j] == 0;
      assert j == 0;
    }
  }

  lemma AheadGrows(c: seq<nat>, n: nat, p: nat, q: nat)
    requires Ahead(c, p, q)
    ensures Ahead(c + [n], p, q)
  {
    var i, j :| 0 <= i <= j < |c| && c[i] == p && c[j] == q;
    assert (c + [n])[i] == p && (c + [n])[j] == q;
  }

  // ---------------------------------------------------------------- what a step leaves alone

  /** Only slot `t + 1` changes, and no request in it is overwritten. */
  ghost predicate OwnSlotOnly(slots: seq<Slot>, slots': seq<Slot>, t: nat) {
    && |slots'| == |slots|
    && (forall q :: 0 <= q < |slots| && q != t + 1 ==> slots'[q] == slots[q])
    && (t + 1 < |slots| ==> slots'[t + 1].reqAns == slots[t + 1].reqAns || !IsRequest(slots[t + 1].reqAns))
  }

  lemma ThreadKept(slots: seq<Slot>, c: seq<nat>, slots': seq<Slot>, t: nat, u: nat, th: Thread)
    requires OwnSlotOnly(slots, slots', t) && u != t && u + 1 < |slots| && forall i :: 0 <= i < |c| ==> c[i] < |slots|
    requires ThreadOk(slots, c, u + 1, th)
    ensures ThreadOk(slots', c, u + 1, th)
  {
  }

  lemma ThreadGrows(slots: seq<Slot>, c: seq<nat>, n: nat, u: nat, th: Thread)
    requires (forall i :: 0 <= i < |c| ==> c[i] < |slots|) && n < |slots| && n != u + 1 && u + 1 < |slots|
    requires ThreadOk(slots, c, u + 1, th)
    ensures ThreadOk(slots, c + [n], u + 1, th)
  {
    var p := u + 1;
    forall q | Ahead(c, p, q) ensures Ahead(c + [n], p, q) { AheadGrows(c, n, p, q); }
  }

  lemma LockKept(lock: bool, threads: seq<Thread>, t: nat, th: Thread)
    requires LockOk(lock, threads) && t < |threads| && Combining(th) == Combining(threads[t])
    ensures LockOk(lock, threads[t := th])
  {
    var threads' := threads[t := th];
    if lock {
      var u :| 0 <= u < |threads| && Combining(threads[u]);
      assert Combining(threads'[u]);
    }
  }

  lemma LockTaken(threads: seq<Thread>, t: nat, th: Thread)
    requires LockOk(false, threads) && t < |threads| && Combining(th)
    ensures LockOk(true, threads[t := th])
  {
    assert Combining(threads[t := th][t]);
  }

  lemma LockFreed(lock: bool, threads: seq<Thread>, t: nat, th: Thread)
    requires LockOk(lock, threads) && t < |threads| && Combining(threads[t]) && !Combining(th)
    ensures LockOk(false, threads[t := th])
  {
  }
}
