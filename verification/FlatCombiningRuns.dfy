/** Runs of a flat-combining structure, one stretch of a thread's code at a time. */
module FlatCombiningRuns {
  import opened Linearizability
  import opened Options
  import opened Slots
  import opened FlatCombining

  type History = seq<Action<Op, int>>

  ghost predicate Within(sched: seq<Choice>, ops: set<Op>) { forall i :: 0 <= i < |sched| ==> sched[i].op in ops }

  /** Some schedule, with calls of `ops` only, leads to `s`. */
  ghost predicate Reached<S>(k: Service<S>, n: nat, ops: set<Op>, s: State<S>) {
    exists sched :: Run(k, n, sched) == s && Within(sched, ops)
  }

  lemma Go<S>(k: Service<S>, n: nat, ops: set<Op>, s: State<S>, t: nat, op: Op)
    requires Reached(k, n, ops, s) && op in ops
    ensures Reached(k, n, ops, Step(k, s, Choice(t, op)))
  {
    var sched :| Run(k, n, sched) == s && Within(sched, ops);
    var more := sched + [Choice(t, op)];
    assert more[..|more| - 1] == sched;
    assert Run(k, n, more) == Step(k, s, Choice(t, op)) && Within(more, ops);
  }

  lemma Begin<S>(k: Service<S>, n: nat, ops: set<Op>)
    ensures Reached(k, n, ops, Init(k, n))
  {
    assert Run(k, n, []) == Init(k, n) && Within([], ops);
  }

  /** The state has been reached, and thread `t` may be asked for `op`. */
  ghost predicate Ready<S>(k: Service<S>, n: nat, ops: set<Op>, s: State<S>, t: nat, op: Op) {
    Reached(k, n, ops, s) && op in ops && t < |s.threads| && |s.slots| == |s.threads| + 1
  }

  /** Thread `t` is now at `th`. */
  function At<S>(s: State<S>, t: nat, th: Thread): State<S>
    requires t < |s.threads|
  {
    s.(threads := s.threads[t := th])
  }

  /** Slot `q` now holds the word `x`. */
  function Word<S>(s: State<S>, q: nat, x: int): State<S>
    requires q < |s.slots|
  {
    s.(slots := s.slots[q := s.slots[q].(reqAns := x)])
  }

  /** One step of thread `t`. */
  lemma To<S>(k: Service<S>, n: nat, ops: set<Op>, s: State<S>, t: nat, op: Op) returns (s': State<S>)
    requires Ready(k, n, ops, s, t, op)
    ensures s' == Step(k, s, Choice(t, op)) && Reached(k, n, ops, s')
  {
    s' := Step(k, s, Choice(t, op));
    Go(k, n, ops, s, t, op);
  }

  /** One step of thread `t` from `th` to `th'` that makes `s'` of the rest; its place in `s` does not matter. */
  lemma Turn<S>(k: Service<S>, n: nat, ops: set<Op>, s: State<S>, t: nat, op: Op, th: Thread, s': State<S>, th': Thread)
    requires t < |s.threads| && s'.threads == s.threads && |s'.slots| == |s.slots|
    requires Ready(k, n, ops, At(s, t, th), t, op)
    requires Step(k, At(s, t, th), Choice(t, op)) == At(At(s', t, th), t, th')
    ensures Ready(k, n, ops, At(s', t, th'), t, op)
  {
    Go(k, n, ops, At(s, t, th), t, op);
    assert s.threads[t := th][t := th'] == s.threads[t := th'];
  }

  /** One step that only moves thread `t` from `pc` to `pc'`. */
  lemma Move<S>(k: Service<S>, n: nat, ops: set<Op>, s: State<S>, t: nat, op: Op, pc: PC, pc': PC)
    requires t < |s.threads| && Ready(k, n, ops, At(s, t, In(op, pc)), t, op)
    requires Step(k, At(s, t, In(op, pc)), Choice(t, op)) == Goto(At(s, t, In(op, pc)), t, pc')
    ensures Ready(k, n, ops, At(s, t, In(op, pc')), t, op)
  {
    Turn(k, n, ops, s, t, op, In(op, pc), s, In(op, pc'));
  }

  lemma Here<S>(s: State<S>, t: nat)
    requires t < |s.threads|
    ensures At(s, t, s.threads[t]) == s
  {
    assert s.threads[t := s.threads[t]] == s.threads;
  }

  // ---------------------------------------------------------------- before combining

  /** A first call: get a slot and link it. */
  lemma Joins<S>(k: Service<S>, n: nat, ops: set<Op>, s: State<S>, t: nat, op: Op) returns (s': State<S>)
    requires Ready(k, n, ops, s, t, op) && s.threads[t] == Out(false)
    ensures Ready(k, n, ops, s', t, op)
    ensures s' == At(s.(slots := s.slots[t + 1 := Slot(NULL_VALUE, Some(s.tail))], tail := t + 1,
                        history := s.history + [Call(t, op)]), t, In(op, Post))
  {
    var called := s.(history := s.history + [Call(t, op)]);
    var blank := called.(slots := s.slots[t + 1 := Slot(NULL_VALUE, None)]);
    s' := To(k, n, ops, s, t, op);
    Turn(k, n, ops, called, t, op, In(op, NewSlot), blank, In(op, ReadTail(false)));
    Move(k, n, ops, blank, t, op, ReadTail(false), WriteNext(s.tail, false));
    s' := Ties(k, n, ops, blank, t, op);
    assert blank.slots[t + 1 := Slot(NULL_VALUE, Some(s.tail))] == s.slots[t + 1 := Slot(NULL_VALUE, Some(s.tail))];
  }

  lemma Ties<S>(k: Service<S>, n: nat, ops: set<Op>, s: State<S>, t: nat, op: Op) returns (s': State<S>)
    requires t < |s.threads| && Ready(k, n, ops, At(s, t, In(op, WriteNext(s.tail, false))), t, op)
    requires s.slots[t + 1] == Slot(NULL_VALUE, None)
    ensures Ready(k, n, ops, s', t, op)
    ensures s' == At(s.(slots := s.slots[t + 1 := Slot(NULL_VALUE, Some(s.tail))], tail := t + 1), t, In(op, Post))
  {
    var tied := s.(slots := s.slots[t + 1 := Slot(NULL_VALUE, Some(s.tail))]);
    Turn(k, n, ops, s, t, op, In(op, WriteNext(s.tail, false)), tied, In(op, CasTail(s.tail, false)));
    Turn(k, n, ops, tied, t, op, In(op, CasTail(s.tail, false)), tied.(tail := t + 1), In(op, Post));
    s' := At(tied.(tail := t + 1), t, In(op, Post));
  }

  /** A further call. */
  lemma Calls<S>(k: Service<S>, n: nat, ops: set<Op>, s: State<S>, t: nat, op: Op) returns (s': State<S>)
    requires Ready(k, n, ops, s, t, op) && s.threads[t] == Out(true)
    ensures Ready(k, n, ops, s', t, op) && s' == At(s.(history := s.history + [Call(t, op)]), t, In(op, Post))
  {
    s' := To(k, n, ops, s, t, op);
  }

  /** Post the request. */
  lemma Asks<S>(k: Service<S>, n: nat, ops: set<Op>, s: State<S>, t: nat, op: Op) returns (s': State<S>)
    requires Ready(k, n, ops, s, t, op) && s.threads[t] == In(op, Post) && s.slots[t + 1].next.Some?
    ensures Ready(k, n, ops, s', t, op) && s' == At(Word(s, t + 1, RequestOf(op)), t, In(op, ReadLock(0)))
  {
    Here(s, t);
    Turn(k, n, ops, s, t, op, In(op, Post), Word(s, t + 1, RequestOf(op)), In(op, CheckNext));
    Move(k, n, ops, Word(s, t + 1, RequestOf(op)), t, op, CheckNext, ReadLock(0));
    s' := At(Word(s, t + 1, RequestOf(op)), t, In(op, ReadLock(0)));
  }

  /** Take the free lock and start to scan. */
  lemma Locks<S>(k: Service<S>, n: nat, ops: set<Op>, s: State<S>, t: nat, op: Op) returns (s': State<S>)
    requires Ready(k, n, ops, s, t, op) && s.threads[t] == In(op, ReadLock(0)) && !s.lock && k.reps(|s.threads|) > 0
    ensures Ready(k, n, ops, s', t, op) && s' == At(s.(lock := true), t, In(op, ScanNext(0, 0, s.tail)))
  {
    var locked := s.(lock := true);
    Here(s, t);
    Move(k, n, ops, s, t, op, ReadLock(0), ReadLock(1));
    Move(k, n, ops, s, t, op, ReadLock(1), ReadLock(2));
    Move(k, n, ops, s, t, op, ReadLock(2), CasLock);
    Turn(k, n, ops, s, t, op, In(op, CasLock), locked, In(op, StartTry(0)));
    Move(k, n, ops, locked, t, op, StartTry(0), ScanNext(0, 0, s.tail));
    s' := At(locked, t, In(op, ScanNext(0, 0, s.tail)));
  }

  // ---------------------------------------------------------------- combining

  /** Serve the request in slot `q`. */
  lemma Serves<S>(k: Service<S>, n: nat, ops: set<Op>, s: State<S>, t: nat, op: Op, i: nat, m: nat, q: nat, next: nat,
                  obj: S, a: int) returns (s': State<S>)
    requires Ready(k, n, ops, s, t, op) && s.threads[t] == In(op, ScanNext(i, m, q)) && q < |s.slots|
    requires s.slots[q].next == Some(next) && IsRequest(s.slots[q].reqAns)
    requires k.serve(s.obj, s.slots[q].reqAns) == (obj, Some(a))
    ensures Ready(k, n, ops, s', t, op)
    ensures s' == At(Word(s.(obj := obj), q, -a), t, In(op, ScanNext(i, m + 1, next)))
  {
    var x, done := s.slots[q].reqAns, Word(s.(obj := obj), q, -a);
    Finds(k, n, ops, s, t, op, i, m, q);
    Answers(k, n, ops, s, t, op, i, m + 1, q, x, obj, a);
    Move(k, n, ops, done, t, op, Advance(i, m + 1, q), ScanNext(i, m + 1, next));
    s' := At(done, t, In(op, ScanNext(i, m + 1, next)));
  }

  lemma Finds<S>(k: Service<S>, n: nat, ops: set<Op>, s: State<S>, t: nat, op: Op, i: nat, m: nat, q: nat)
    requires Ready(k, n, ops, s, t, op) && s.threads[t] == In(op, ScanNext(i, m, q)) && q < |s.slots|
    requires s.slots[q].next.Some? && IsRequest(s.slots[q].reqAns)
    ensures Ready(k, n, ops, At(s, t, In(op, Serve(i, m + 1, q, s.slots[q].reqAns))), t, op)
  {
    Here(s, t);
    Move(k, n, ops, s, t, op, ScanNext(i, m, q), ScanRead(i, m, q));
    Move(k, n, ops, s, t, op, ScanRead(i, m, q), Serve(i, m + 1, q, s.slots[q].reqAns));
  }

  lemma Answers<S>(k: Service<S>, n: nat, ops: set<Op>, s: State<S>, t: nat, op: Op, i: nat, m: nat, q: nat, x: int,
                   obj: S, a: int)
    requires t < |s.threads| && Ready(k, n, ops, At(s, t, In(op, Serve(i, m, q, x))), t, op) && q < |s.slots|
    requires k.serve(s.obj, x) == (obj, Some(a))
    ensures Ready(k, n, ops, At(Word(s.(obj := obj), q, -a), t, In(op, Advance(i, m, q))), t, op)
  {
    Turn(k, n, ops, s, t, op, In(op, Serve(i, m, q, x)), Word(s.(obj := obj), q, -a), In(op, Advance(i, m, q)));
  }

  /** Pass over slot `q`, which holds no request. */
  lemma Passes<S>(k: Service<S>, n: nat, ops: set<Op>, s: State<S>, t: nat, op: Op, i: nat, m: nat, q: nat, next: nat)
    returns (s': State<S>)
    requires Ready(k, n, ops, s, t, op) && s.threads[t] == In(op, ScanNext(i, m, q)) && q < |s.slots|
    requires s.slots[q].next == Some(next) && !IsRequest(s.slots[q].reqAns)
    ensures Ready(k, n, ops, s', t, op) && s' == At(s, t, In(op, ScanNext(i, m, next)))
  {
    Here(s, t);
    Move(k, n, ops, s, t, op, ScanNext(i, m, q), ScanRead(i, m, q));
    Move(k, n, ops, s, t, op, ScanRead(i, m, q), Advance(i, m, q));
    Move(k, n, ops, s, t, op, Advance(i, m, q), ScanNext(i, m, next));
    s' := At(s, t, In(op, ScanNext(i, m, next)));
  }

  /** The last scan ends. */
  lemma Ends<S>(k: Service<S>, n: nat, ops: set<Op>, s: State<S>, t: nat, op: Op, i: nat, m: nat) returns (s': State<S>)
    requires Ready(k, n, ops, s, t, op) && s.threads[t] == In(op, ScanNext(i, m, 0)) && s.slots[0].next.None?
    requires m < Threshold(s) || i + 1 >= k.reps(|s.threads|)
    ensures Ready(k, n, ops, s', t, op) && s' == At(s, t, In(op, Unlock))
  {
    Here(s, t);
    if m < Threshold(s) {
      Move(k, n, ops, s, t, op, ScanNext(i, m, 0), Unlock);
    } else {
      Move(k, n, ops, s, t, op, ScanNext(i, m, 0), StartTry(i + 1));
      Move(k, n, ops, s, t, op, StartTry(i + 1), Unlock);
    }
    s' := At(s, t, In(op, Unlock));
  }

  /** Another scan starts. */
  lemma Repeats<S>(k: Service<S>, n: nat, ops: set<Op>, s: State<S>, t: nat, op: Op, i: nat, m: nat)
    returns (s': State<S>)
    requires Ready(k, n, ops, s, t, op) && s.threads[t] == In(op, ScanNext(i, m, 0)) && s.slots[0].next.None?
    requires m >= Threshold(s) && i + 1 < k.reps(|s.threads|)
    ensures Ready(k, n, ops, s', t, op) && s' == At(s, t, In(op, ScanNext(i + 1, 0, s.tail)))
  {
    Here(s, t);
    Move(k, n, ops, s, t, op, ScanNext(i, m, 0), StartTry(i + 1));
    Move(k, n, ops, s, t, op, StartTry(i + 1), ScanNext(i + 1, 0, s.tail));
    s' := At(s, t, In(op, ScanNext(i + 1, 0, s.tail)));
  }

  /** What an operation returns when the word `x` is in its slot. */
  function Result(op: Op, x: int): int { if op.Add? then 0 else -x }

  /** The state when thread `t`, with the word `x` in its slot, has returned. */
  function Told<S>(s: State<S>, t: nat, op: Op, x: int): State<S>
    requires t < |s.threads|
  {
    At(s.(history := s.history + [Ret(t, Result(op, x))]), t, Out(true))
  }

  /** A last step of an `add`. */
  lemma Acknowledges<S>(k: Service<S>, n: nat, ops: set<Op>, s: State<S>, t: nat, op: Op, pc: PC, s': State<S>, x: int)
    requires t < |s.threads| && s'.threads == s.threads && |s'.slots| == |s.slots| && op.Add?
    requires Ready(k, n, ops, At(s, t, In(op, pc)), t, op)
    requires Step(k, At(s, t, In(op, pc)), Choice(t, op)) == Return(At(s', t, In(op, pc)), t, 0)
    ensures Reached(k, n, ops, Told(s', t, op, x))
  {
    Turn(k, n, ops, s, t, op, In(op, pc), s'.(history := s'.history + [Ret(t, 0)]), Out(true));
  }

  /** Release the lock and return. */
  lemma Leaves<S>(k: Service<S>, n: nat, ops: set<Op>, s: State<S>, t: nat, op: Op) returns (s': State<S>)
    requires Ready(k, n, ops, s, t, op) && s.threads[t] == In(op, Unlock)
    ensures Reached(k, n, ops, s')
    ensures s' == Told(s.(lock := false, obj := k.leave(s.obj)), t, op, s.slots[t + 1].reqAns)
  {
    var free := s.(lock := false, obj := k.leave(s.obj));
    Here(s, t);
    if op.Add? {
      Acknowledges(k, n, ops, s, t, op, Unlock, free, s.slots[t + 1].reqAns);
    } else {
      Turn(k, n, ops, s, t, op, In(op, Unlock), free, In(op, ReadAns));
      Replies(k, n, ops, free, t, op);
    }
    s' := Told(free, t, op, s.slots[t + 1].reqAns);
  }

  /** The last step of a `remove`. */
  lemma Replies<S>(k: Service<S>, n: nat, ops: set<Op>, s: State<S>, t: nat, op: Op)
    requires t < |s.threads| && Ready(k, n, ops, At(s, t, In(op, ReadAns)), t, op) && op.Remove?
    ensures Reached(k, n, ops, Told(s, t, op, s.slots[t + 1].reqAns))
  {
    var told := s.(history := s.history + [Ret(t, -s.slots[t + 1].reqAns)]);
    Turn(k, n, ops, s, t, op, In(op, ReadAns), told, Out(true));
  }

  // ---------------------------------------------------------------- being served

  /** Return with the answer that the combiner has left. */
  lemma Returns<S>(k: Service<S>, n: nat, ops: set<Op>, s: State<S>, t: nat, op: Op) returns (s': State<S>)
    requires Ready(k, n, ops, s, t, op) && s.threads[t] == In(op, ReadLock(0)) && s.lock
    requires Answered(op, s.slots[t + 1].reqAns)
    ensures Reached(k, n, ops, s') && s' == Told(s, t, op, s.slots[t + 1].reqAns)
  {
    Notices(k, n, ops, s, t, op);
    if op.Add? {
      Acknowledges(k, n, ops, s, t, op, Recheck, s, s.slots[t + 1].reqAns);
    } else {
      Move(k, n, ops, s, t, op, Recheck, ReadAns);
      Replies(k, n, ops, s, t, op);
    }
    s' := Told(s, t, op, s.slots[t + 1].reqAns);
  }

  lemma Notices<S>(k: Service<S>, n: nat, ops: set<Op>, s: State<S>, t: nat, op: Op)
    requires Ready(k, n, ops, s, t, op) && s.threads[t] == In(op, ReadLock(0)) && s.lock
    requires Answered(op, s.slots[t + 1].reqAns)
    ensures Ready(k, n, ops, At(s, t, In(op, Recheck)), t, op)
  {
    Here(s, t);
    Move(k, n, ops, s, t, op, ReadLock(0), WaitAns);
    Move(k, n, ops, s, t, op, WaitAns, Recheck);
  }

  // ---------------------------------------------------------------- an operation of a lone thread

  /** The only slot on the list is that of thread `t`, and a pass with one change is not repeated. */
  ghost predicate Alone<S>(k: Service<S>, s: State<S>, t: nat) {
    && t + 1 < |s.slots| && s.tail == t + 1 && s.slots[t + 1].next == Some(0) && s.slots[0].next.None? && !s.lock
    && Threshold(s) > 0 && k.reps(|s.threads|) > 0 && (Threshold(s) > 1 || k.reps(|s.threads|) == 1)
  }

  /** What becomes of the request of a lone thread: the object afterwards, and the word left in the slot. A word that is
      no request is passed over. */
  ghost predicate Comes<S>(k: Service<S>, op: Op, before: S, obj: S, y: int) {
    var x := RequestOf(op);
    if IsRequest(x) then k.serve(before, x) == (obj, Some(-y)) else op.Add? && obj == before && y == x
  }

  lemma SoloLook<S>(k: Service<S>, n: nat, ops: set<Op>, s: State<S>, t: nat, op: Op, obj: S, y: int) returns (m: nat)
    requires Ready(k, n, ops, s, t, op) && s.threads[t] == In(op, ScanNext(0, 0, t + 1)) && t + 1 < |s.slots|
    requires s.slots[t + 1] == Slot(RequestOf(op), Some(0)) && Comes(k, op, s.obj, obj, y)
    ensures m <= 1 && Ready(k, n, ops, At(Word(s.(obj := obj), t + 1, y), t, In(op, ScanNext(0, m, 0))), t, op)
  {
    if IsRequest(RequestOf(op)) {
      m := 1;
      var s' := Serves(k, n, ops, s, t, op, 0, 0, t + 1, 0, obj, -y);
    } else {
      m := 0;
      var s' := Passes(k, n, ops, s, t, op, 0, 0, t + 1, 0);
      assert Word(s.(obj := obj), t + 1, y).slots == s.slots;
    }
  }

  lemma SoloScan<S>(k: Service<S>, n: nat, ops: set<Op>, s: State<S>, t: nat, op: Op, obj: S, y: int)
    returns (s': State<S>)
    requires Ready(k, n, ops, s, t, op) && s.threads[t] == In(op, ScanNext(0, 0, t + 1)) && t + 1 < |s.slots|
    requires s.slots[t + 1] == Slot(RequestOf(op), Some(0)) && s.slots[0].next.None? && Threshold(s) > 0
    requires (Threshold(s) > 1 || k.reps(|s.threads|) == 1) && Comes(k, op, s.obj, obj, y)
    ensures Ready(k, n, ops, s', t, op) && s' == At(Word(s.(obj := obj), t + 1, y), t, In(op, Unlock))
  {
    var done := Word(s.(obj := obj), t + 1, y);
    var m := SoloLook(k, n, ops, s, t, op, obj, y);
    s' := Ends(k, n, ops, At(done, t, In(op, ScanNext(0, m, 0))), t, op, 0, m);
    assert done.threads[t := In(op, ScanNext(0, m, 0))][t := In(op, Unlock)] == done.threads[t := In(op, Unlock)];
  }

  /** From posting the request to the return. */
  lemma Solo<S>(k: Service<S>, n: nat, ops: set<Op>, s: State<S>, t: nat, op: Op, obj: S, y: int) returns (s': State<S>)
    requires Ready(k, n, ops, s, t, op) && s.threads[t] == In(op, Post) && Alone(k, s, t) && Comes(k, op, s.obj, obj, y)
    ensures Reached(k, n, ops, s') && s' == Told(Word(s.(obj := k.leave(obj)), t + 1, y), t, op, y)
  {
    s' := Asks(k, n, ops, s, t, op);
    s' := Locks(k, n, ops, s', t, op);
    s' := SoloScan(k, n, ops, s', t, op, obj, y);
    s' := Leaves(k, n, ops, s', t, op);
    assert s'.slots == Word(s, t + 1, y).slots;
    assert s'.threads == s.threads[t := Out(true)];
  }

  /** Thread 0 has come and gone, alone, or is at `th`: its slot holds the word `x`. */
  ghost predicate Single<S>(s: State<S>, n: nat, th: Thread, x: int, obj: S, h: History) {
    && n > 0 && |s.threads| == n && |s.slots| == n + 1 && s.threads[0] == th
    && (forall u :: 0 < u < n ==> s.threads[u] == Out(false))
    && s.tail == 1 && s.slots[0].next.None? && s.slots[1] == Slot(x, Some(0))
    && !s.lock && s.obj == obj && s.history == h
  }

  ghost predicate Resting<S>(k: Service<S>, s: State<S>, ops: set<Op>, n: nat, x: int, obj: S, h: History) {
    Reached(k, n, ops, s) && Single(s, n, Out(true), x, obj, h)
  }

  /** A pass with one change is not repeated. */
  ghost predicate OneIsFew<S>(k: Service<S>, n: nat) { k.reps(n) > 0 && (n == 1 ==> k.reps(n) == 1) }

  lemma LoneOp<S>(k: Service<S>, s: State<S>, ops: set<Op>, n: nat, x: int, before: S, h: History, op: Op, obj: S,
                  y: int) returns (s': State<S>)
    requires Reached(k, n, ops, s) && Single(s, n, In(op, Post), x, before, h) && op in ops && OneIsFew(k, n)
    requires Comes(k, op, before, obj, y)
    ensures Resting(k, s', ops, n, y, k.leave(obj), h + [Ret(0, Result(op, y))])
  {
    ThresholdAbove(s);
    s' := Solo(k, n, ops, s, 0, op, obj, y);
  }

  lemma ThresholdAbove<S>(s: State<S>)
    ensures |s.threads| > 0 ==> Threshold(s) > 0
    ensures |s.threads| > 1 ==> Threshold(s) > 1
    ensures |s.threads| == 2 ==> Threshold(s) == 2
  {
    if |s.threads| == 2 { assert 36 == 2 * 17 + 2; }
    else if |s.threads| > 1 { assert 10 * |s.threads| + 16 >= 2 * 17; }
  }

  lemma FirstOp<S>(k: Service<S>, ops: set<Op>, n: nat, op: Op, obj: S, y: int) returns (s: State<S>)
    requires n > 0 && op in ops && OneIsFew(k, n) && Comes(k, op, k.first, obj, y)
    ensures Resting(k, s, ops, n, y, k.leave(obj), [Call(0, op), Ret(0, Result(op, y))])
  {
    Begin(k, n, ops);
    s := Joins(k, n, ops, Init(k, n), 0, op);
    s := LoneOp(k, s, ops, n, NULL_VALUE, k.first, [Call(0, op)], op, obj, y);
    assert [Call(0, op)] + [Ret(0, Result(op, y))] == [Call(0, op), Ret(0, Result(op, y))];
  }

  lemma NextOp<S>(k: Service<S>, s: State<S>, ops: set<Op>, n: nat, x: int, before: S, h: History, op: Op, obj: S,
                  y: int) returns (s': State<S>)
    requires Resting(k, s, ops, n, x, before, h) && op in ops && OneIsFew(k, n) && Comes(k, op, before, obj, y)
    ensures Resting(k, s', ops, n, y, k.leave(obj), h + [Call(0, op), Ret(0, Result(op, y))])
  {
    s' := Calls(k, n, ops, s, 0, op);
    s' := LoneOp(k, s', ops, n, x, before, h + [Call(0, op)], op, obj, y);
    assert h + [Call(0, op)] + [Ret(0, Result(op, y))] == h + [Call(0, op), Ret(0, Result(op, y))];
  }
}
