/**
 The trace generator of host/gen_multi/host_generator_thread.cpp (`func_gen`) as a state machine.

 N threads share a spin lock, two counters and a list, and each writes a log. Every access to a shared
 variable is one step; the list is used under the lock only, so an operation on it is one step as well,
 and the list is the set it stands for. The random key and the random roll are picked by the schedule.
 */
module TraceGenerator {
  import opened ReplayLog
  import opened ReplayChecker

  /** Program points, named after the access that comes next. */
  datatype PC =
    | Guard                          // op_count < ttop ?
    | TryLock                        // lock.exchange(true)
    | CountOp                        // op_count++
    | Draw                           // key and roll; read size
    | Do(op: Op, key: int)           // the list operation and its log line
    | SizeUp                         // size++
    | SizeDown                       // size--
    | Release                        // lock.exchange(false)
    | Finished

  datatype Params = Params(cp: int, ttop: int, maxsz: int)

  /** `order` records the log lines of all threads in the order in which they came about. */
  datatype State = State(opCount: int, size: int, lock: bool, list: set<int>, threads: seq<PC>,
                         logs: seq<seq<Entry>>, order: seq<Line>)

  datatype Line = Line(t: nat, e: Entry)

  datatype Choice = Choice(t: nat, key: int, roll: nat)

  /** After `main` has filled the list. */
  function Init(n: nat, start: set<int>): State {
    State(0, |start|, false, start, seq(n, i => Guard), seq(n, i => []), [])
  }

  function At(s: State, t: nat, pc: PC): State
    requires t < |s.threads|
  {
    s.(threads := s.threads[t := pc])
  }

  /** Lines 34-82: which operation is tried. */
  function Pick(p: Params, size: int, roll: nat): Op {
    var r := roll % 100 + 1;
    if r <= p.cp then Contains
    else if r > p.cp + Half(100 - p.cp) then if size > 0 then Remove else Add
    else if size < p.maxsz then Add else Remove
  }

  /** Division by two as C does it, towards zero. */
  function Half(x: int): int { if x >= 0 then x / 2 else -(-x / 2) }

  function Step(p: Params, s: State, ch: Choice): (s': State)
    ensures |s'.threads| == |s.threads| && |s'.logs| == |s.logs|
  {
    var t := ch.t;
    if t >= |s.threads| || t >= |s.logs| then s else
    match s.threads[t]
    case Guard => At(s, t, if s.opCount < p.ttop then TryLock else Finished)
    case TryLock => if s.lock then At(s, t, Guard) else At(s.(lock := true), t, CountOp)
    case CountOp => At(s.(opCount := s.opCount + 1), t, Draw)
    case Draw => At(s, t, Do(Pick(p, s.size, ch.roll), ch.key))
    case Do(op, key) =>
      var yes := Yes(s.list, op, key);
      var line := Entry(op, key, yes);
      var s1 := s.(list := After(s.list, op, key), logs := s.logs[t := s.logs[t] + [line]],
        order := s.order + [Line(t, line)]);
      At(s1, t, if yes && op.Add? then SizeUp else if yes && op.Remove? then SizeDown else Release)
    case SizeUp => At(s.(size := s.size + 1), t, Release)
    case SizeDown => At(s.(size := s.size - 1), t, Release)
    case Release => At(s.(lock := false), t, Guard)
    case Finished => s
  }

  function Run(p: Params, n: nat, start: set<int>, sched: seq<Choice>): (s: State)
    ensures |s.threads| == n && |s.logs| == n
  {
    if sched == [] then Init(n, start) else Step(p, Run(p, n, start, sched[..|sched| - 1]), sched[|sched| - 1])
  }

  // ---------------------------------------------------------------- what the logs mean

  /** The set after the lines of `order`. */
  function SetAfter(start: set<int>, order: seq<Line>): set<int> {
    if order == [] then start else
    var last := order[|order| - 1].e;
    After(SetAfter(start, order[..|order| - 1]), last.op, last.x)
  }

  /** Every line's answer is the answer of the set at that point. */
  ghost predicate AllRight(start: set<int>, order: seq<Line>) {
    forall k :: 0 <= k < |order| ==> order[k].e.yes == Yes(SetAfter(start, order[..k]), order[k].e.op, order[k].e.x)
  }

  /** The lines of one thread. */
  function LogOf(order: seq<Line>, t: nat): seq<Entry> {
    if order == [] then [] else
    var rest := LogOf(order[..|order| - 1], t);
    if order[|order| - 1].t == t then rest + [order[|order| - 1].e] else rest
  }

  ghost predicate Logged(s: State, start: set<int>) {
    && AllRight(start, s.order) && s.list == SetAfter(start, s.order)
    && (forall t :: 0 <= t < |s.logs| ==> s.logs[t] == LogOf(s.order, t))
  }

  // ---------------------------------------------------------------- the invariant

  predicate InSection(pc: PC) { pc.CountOp? || pc.Draw? || pc.Do? || pc.SizeUp? || pc.SizeDown? || pc.Release? }

  ghost predicate LockOk(s: State) {
    && (forall t, u :: 0 <= t < u < |s.threads| ==> !InSection(s.threads[t]) || !InSection(s.threads[u]))
    && (s.lock <==> exists t :: 0 <= t < |s.threads| && InSection(s.threads[t]))
  }

  /** How far `size` is behind the list while a thread is at `pc`. */
  function Lag(pc: PC): int { if pc.SizeUp? then 1 else if pc.SizeDown? then -1 else 0 }

  /** What a thread in the section has made sure of. */
  predicate Knows(p: Params, s: State, pc: PC) {
    && s.size + Lag(pc) == |s.list|
    && |s.list| <= p.maxsz && 0 <= s.size
    && (pc.Do? && pc.op.Add? ==> s.size < p.maxsz)
  }

  ghost predicate SizeOk(p: Params, s: State) {
    && (!s.lock ==> s.size == |s.list| <= p.maxsz)
    && (forall t :: 0 <= t < |s.threads| && InSection(s.threads[t]) ==> Knows(p, s, s.threads[t]))
  }

  /** Threads that have passed the guard and not yet counted their operation. */
  function Pledged(threads: seq<PC>): nat {
    if threads == [] then 0 else
    var last := threads[|threads| - 1];
    Pledged(threads[..|threads| - 1]) + if last.TryLock? || last.CountOp? then 1 else 0
  }

  ghost predicate CountOk(p: Params, s: State) {
    s.opCount + Pledged(s.threads) <= p.ttop - 1 + |s.threads| || (s.opCount == 0 && Pledged(s.threads) == 0)
  }

  ghost predicate Inv(p: Params, s: State, start: set<int>) {
    && |s.logs| == |s.threads| && LockOk(s) && CountOk(p, s) && Logged(s, start)
  }

  /** When the size can stay within its bound: there is room for one element, or nothing is ever added. */
  predicate Bounded(p: Params) { p.maxsz >= 1 || p.cp >= 100 || p.ttop <= 0 }

  /** With nothing to do no thread gets past the guard. */
  ghost predicate NothingToDo(p: Params, s: State) {
    && s.opCount >= 0
    && (p.ttop <= 0 ==> forall t :: 0 <= t < |s.threads| ==> s.threads[t].Guard? || s.threads[t].Finished?)
  }

  // ---------------------------------------------------------------- every step

  lemma {:induction false} PledgedUpdate(threads: seq<PC>, t: nat, pc: PC)
    requires t < |threads|
    ensures Pledged(threads[t := pc]) + (if threads[t].TryLock? || threads[t].CountOp? then 1 else 0)
      == Pledged(threads) + if pc.TryLock? || pc.CountOp? then 1 else 0
    decreases |threads|
  {
    var n := |threads| - 1;
    if t < n {
      PledgedUpdate(threads[..n], t, pc);
      assert threads[t := pc][..n] == threads[..n][t := pc];
    } else {
      assert threads[t := pc][..n] == threads[..n];
    }
  }

  lemma {:induction false} PledgedBound(threads: seq<PC>)
    ensures Pledged(threads) <= |threads|
  {
    if threads != [] {
      PledgedBound(threads[..|threads| - 1]);
    }
  }

  lemma OneMoves(p: Params, s: State, ch: Choice)
    requires ch.t < |s.threads|
    ensures Step(p, s, ch).threads == s.threads[ch.t := Step(p, s, ch).threads[ch.t]]
  {
  }

  lemma CountStep(p: Params, s: State, ch: Choice)
    requires CountOk(p, s) && ch.t < |s.threads| == |s.logs|
    ensures CountOk(p, Step(p, s, ch))
  {
    var s' := Step(p, s, ch);
    OneMoves(p, s, ch);
    PledgedUpdate(s.threads, ch.t, s'.threads[ch.t]);
    PledgedBound(s'.threads);
  }

  lemma LockStep(p: Params, s: State, ch: Choice)
    requires LockOk(s) && ch.t < |s.threads| == |s.logs|
    ensures LockOk(Step(p, s, ch))
  {
    var t, s' := ch.t, Step(p, s, ch);
    OneMoves(p, s, ch);
    if s'.lock && !InSection(s'.threads[t]) {
      var u :| 0 <= u < |s.threads| && InSection(s.threads[u]);
      assert InSection(s'.threads[u]);
    }
  }

  lemma IdleStep(p: Params, s: State, ch: Choice)
    requires NothingToDo(p, s) && ch.t < |s.threads| == |s.logs|
    ensures NothingToDo(p, Step(p, s, ch))
  {
    OneMoves(p, s, ch);
  }

  /** What is drawn never overfills the list. */
  lemma PickFits(p: Params, size: int, roll: nat)
    requires (p.maxsz >= 1 || p.cp >= 100) && Pick(p, size, roll).Add?
    ensures size < p.maxsz || size <= 0 < p.maxsz
  {
  }

  lemma DoKnows(p: Params, s: State, op: Op, key: int)
    requires Knows(p, s, Do(op, key))
    ensures var yes, list := Yes(s.list, op, key), After(s.list, op, key);
      |list| == |s.list| + (if yes && op.Add? then 1 else if yes && op.Remove? then -1 else 0) && |list| <= p.maxsz
  {
    match op
    case Add => assert key in s.list ==> s.list + {key} == s.list;
    case Contains =>
    case Remove => assert key !in s.list ==> s.list - {key} == s.list;
  }

  lemma DrawKnows(p: Params, s: State, s': State, key: int, roll: nat)
    requires (p.maxsz >= 1 || p.cp >= 100) && Knows(p, s, Draw) && s'.size == s.size && s'.list == s.list
    ensures Knows(p, s', Do(Pick(p, s.size, roll), key))
  {
    if Pick(p, s.size, roll).Add? { PickFits(p, s.size, roll); }
  }

  lemma DoneKnows(p: Params, s: State, s': State, op: Op, key: int)
    requires Knows(p, s, Do(op, key)) && s'.size == s.size && s'.list == After(s.list, op, key)
    ensures var yes := Yes(s.list, op, key);
      Knows(p, s', if yes && op.Add? then SizeUp else if yes && op.Remove? then SizeDown else Release)
  {
    DoKnows(p, s, op, key);
  }

  lemma MoverKnows(p: Params, s: State, ch: Choice)
    requires Bounded(p) && NothingToDo(p, s) && SizeOk(p, s) && ch.t < |s.threads| == |s.logs|
    requires InSection(Step(p, s, ch).threads[ch.t])
    ensures Knows(p, Step(p, s, ch), Step(p, s, ch).threads[ch.t])
  {
    var pc, s' := s.threads[ch.t], Step(p, s, ch);
    if pc.Draw? {
      DrawKnows(p, s, s', ch.key, ch.roll);
    } else if pc.Do? {
      DoneKnows(p, s, s', pc.op, pc.key);
    } else {
      assert s'.list == s.list && (pc.TryLock? || Knows(p, s, pc));
    }
  }

  lemma SizeStep(p: Params, s: State, ch: Choice)
    requires Bounded(p) && NothingToDo(p, s) && LockOk(s) && SizeOk(p, s) && ch.t < |s.threads| == |s.logs|
    ensures SizeOk(p, Step(p, s, ch))
  {
    var t, s' := ch.t, Step(p, s, ch);
    OneMoves(p, s, ch);
    if InSection(s'.threads[t]) { MoverKnows(p, s, ch); }
    forall u | 0 <= u < |s'.threads| && u != t && InSection(s'.threads[u]) ensures Knows(p, s', s'.threads[u]) {
      assert InSection(s.threads[u]) && Knows(p, s, s.threads[u]) && s.lock;
      assert !InSection(s.threads[t]);
    }
    LockStep(p, s, ch);
  }

  lemma Appended(start: set<int>, order: seq<Line>, line: Line)
    requires AllRight(start, order) && line.e.yes == Yes(SetAfter(start, order), line.e.op, line.e.x)
    ensures AllRight(start, order + [line])
    ensures SetAfter(start, order + [line]) == After(SetAfter(start, order), line.e.op, line.e.x)
    ensures forall t :: LogOf(order + [line], t) == if line.t == t then LogOf(order, t) + [line.e] else LogOf(order, t)
  {
    var order' := order + [line];
    assert order'[..|order|] == order;
    forall k | 0 <= k < |order'|
      ensures order'[k].e.yes == Yes(SetAfter(start, order'[..k]), order'[k].e.op, order'[k].e.x)
    {
      if k < |order| { assert order'[..k] == order[..k]; }
    }
  }

  lemma LineStep(s: State, s': State, t: nat, e: Entry, start: set<int>)
    requires Logged(s, start) && t < |s.logs| && e.yes == Yes(s.list, e.op, e.x)
    requires s'.order == s.order + [Line(t, e)] && s'.list == After(s.list, e.op, e.x)
    requires s'.logs == s.logs[t := s.logs[t] + [e]]
    ensures Logged(s', start)
  {
    Appended(start, s.order, Line(t, e));
  }

  lemma LogStep(p: Params, s: State, ch: Choice, start: set<int>)
    requires Logged(s, start) && ch.t < |s.threads| == |s.logs|
    ensures Logged(Step(p, s, ch), start)
  {
    var t, s' := ch.t, Step(p, s, ch);
    if s.threads[t].Do? {
      var op, key := s.threads[t].op, s.threads[t].key;
      LineStep(s, s', t, Entry(op, key, Yes(s.list, op, key)), start);
    } else {
      NoLine(p, s, ch);
    }
  }

  lemma NoLine(p: Params, s: State, ch: Choice)
    requires ch.t < |s.threads| == |s.logs| && !s.threads[ch.t].Do?
    ensures Step(p, s, ch).order == s.order && Step(p, s, ch).list == s.list && Step(p, s, ch).logs == s.logs
  {
  }

  // ---------------------------------------------------------------- whole runs

  lemma InitInv(p: Params, n: nat, start: set<int>)
    ensures Inv(p, Init(n, start), start)
  {
    NonePledged(n);
  }

  lemma {:induction false} NonePledged(n: nat)
    ensures Pledged(seq(n, i => Guard)) == 0
  {
    if n > 0 {
      NonePledged(n - 1);
      assert seq(n, i => Guard)[..n - 1] == seq(n - 1, i => Guard);
    }
  }

  lemma {:induction false} RunInv(p: Params, n: nat, start: set<int>, sched: seq<Choice>)
    ensures Inv(p, Run(p, n, start, sched), start)
  {
    if sched == [] {
      InitInv(p, n, start);
    } else {
      var s, ch := Run(p, n, start, sched[..|sched| - 1]), sched[|sched| - 1];
      RunInv(p, n, start, sched[..|sched| - 1]);
      if ch.t < n {
        LockStep(p, s, ch);
        CountStep(p, s, ch);
        LogStep(p, s, ch, start);
      }
    }
  }

  lemma {:induction false} RunSize(p: Params, n: nat, start: set<int>, sched: seq<Choice>)
    requires Bounded(p) && |start| <= p.maxsz
    ensures SizeOk(p, Run(p, n, start, sched)) && NothingToDo(p, Run(p, n, start, sched))
  {
    if sched != [] {
      var s, ch := Run(p, n, start, sched[..|sched| - 1]), sched[|sched| - 1];
      RunSize(p, n, start, sched[..|sched| - 1]);
      RunInv(p, n, start, sched[..|sched| - 1]);
      if ch.t < n {
        SizeStep(p, s, ch);
        IdleStep(p, s, ch);
      }
    }
  }

  /** Whenever the spin lock is free, `size` is the cardinality of the list and does not exceed the maximum. */
  lemma SizeWhenFree(p: Params, n: nat, start: set<int>, sched: seq<Choice>)
    requires Bounded(p) && |start| <= p.maxsz && !Run(p, n, start, sched).lock
    ensures var s := Run(p, n, start, sched); 0 <= s.size == |s.list| <= p.maxsz
  {
    RunSize(p, n, start, sched);
  }

  /** Every logged answer is the set's answer in one order of all lines, of which each log is its thread's part. */
  lemma AnswersRight(p: Params, n: nat, start: set<int>, sched: seq<Choice>)
    ensures var s := Run(p, n, start, sched);
      AllRight(start, s.order) && forall t :: 0 <= t < n ==> s.logs[t] == LogOf(s.order, t)
  {
    RunInv(p, n, start, sched);
  }

  /** The operation count overshoots its bound by at most N - 1. */
  lemma CountBound(p: Params, n: nat, start: set<int>, sched: seq<Choice>)
    requires p.ttop >= 0 && n >= 1
    ensures Run(p, n, start, sched).opCount <= p.ttop + n - 1
  {
    RunInv(p, n, start, sched);
  }

  // ---------------------------------------------------------------- how often which operation is tried

  /** How many of the rolls below `k` lead to the operation. */
  function Rolls(p: Params, size: int, op: Op, k: nat): nat {
    if k == 0 then 0 else Rolls(p, size, op, k - 1) + if Pick(p, size, k - 1) == op then 1 else 0
  }

  /** How many numbers from `lo` up to, but not including, `hi` are below `k`. */
  function Below(lo: int, hi: int, k: nat): int { if k <= lo then 0 else if k <= hi then k - lo else hi - lo }

  lemma {:induction false} RollsAre(p: Params, size: int, k: nat)
    requires 0 <= p.cp <= 100 && k <= 100
    ensures var half := p.cp + (100 - p.cp) / 2; var low, high := Below(p.cp, half, k), Below(half, 100, k);
      && Rolls(p, size, Contains, k) == Below(0, p.cp, k)
      && Rolls(p, size, Add, k) == (if size < p.maxsz then low else 0) + (if size > 0 then 0 else high)
      && Rolls(p, size, Remove, k) == (if size < p.maxsz then 0 else low) + (if size > 0 then high else 0)
  {
    if k > 0 {
      RollsAre(p, size, k - 1);
      assert (k - 1) % 100 + 1 == k;
    }
  }

  /** A contains is tried on as many of a hundred rolls as the parameter says. The rest go half to additions and half to
      removals, the odd one to removals, while the list is neither empty nor full; all to additions when it is empty,
      and all to removals when it is full. With maximum 0 the halves are exchanged. */
  lemma Percentages(p: Params, size: int)
    requires 0 <= p.cp <= 100
    ensures Rolls(p, size, Contains, 100) == p.cp
    ensures var rest := 100 - p.cp;
      && Rolls(p, size, Add, 100)
         == (if 0 < size < p.maxsz then rest / 2 else if size < p.maxsz then rest else if size > 0 then 0
             else rest - rest / 2)
      && Rolls(p, size, Remove, 100) == rest - Rolls(p, size, Add, 100)
  {
    RollsAre(p, size, 100);
  }

  // ---------------------------------------------------------------- maximum size 0

  /** A lone thread with an empty list, before its step `k`: the roll asks for a removal, which becomes an addition. */
  function OverrunAt(key: int, k: nat): State {
    var pcs, done := [Guard, TryLock, CountOp, Draw, Do(Add, key), SizeUp, Release, Guard], k > 4;
    State(if k > 2 then 1 else 0, if k > 5 then 1 else 0, 2 <= k <= 6, if done then {key} else {},
          [if k < 8 then pcs[k] else Finished],
          [if done then [Entry(Add, key, true)] else []], if done then [Line(0, Entry(Add, key, true))] else [])
  }

  lemma OverrunStep(p: Params, key: int, k: nat)
    requires p.maxsz == 0 && p.cp < 100 && p.ttop >= 1 && k < 7
    ensures Step(p, OverrunAt(key, k), Choice(0, key, 99)) == OverrunAt(key, k + 1)
  {
    var s' := Step(p, OverrunAt(key, k), Choice(0, key, 99));
    assert Pick(p, 0, 99) == Add;
    assert s'.threads == OverrunAt(key, k + 1).threads;
    assert [] + [Entry(Add, key, true)] == [Entry(Add, key, true)];
    assert s'.logs == OverrunAt(key, k + 1).logs;
    assert s'.list == OverrunAt(key, k + 1).list;
  }

  lemma {:induction false} Overrun(p: Params, key: int, k: nat) returns (sched: seq<Choice>)
    requires p.maxsz == 0 && p.cp < 100 && p.ttop >= 1 && k <= 7
    ensures Run(p, 1, {}, sched) == OverrunAt(key, k)
  {
    if k == 0 {
      sched := [];
      assert Init(1, {}).threads == OverrunAt(key, 0).threads && Init(1, {}).logs == OverrunAt(key, 0).logs;
    } else {
      var before := Overrun(p, key, k - 1);
      OverrunStep(p, key, k - 1);
      sched := before + [Choice(0, key, 99)];
      assert sched[..|sched| - 1] == before;
    }
  }

  /** With maximum size 0 the bound on the size does not hold. */
  lemma MaximumZero(p: Params, key: int) returns (sched: seq<Choice>)
    requires p.maxsz == 0 && p.cp < 100 && p.ttop >= 1
    ensures var s := Run(p, 1, {}, sched); !s.lock && s.size == 1 > p.maxsz
  {
    sched := Overrun(p, key, 7);
  }

  /** `size` stays within the maximum in every run, from every list that fits, exactly when the maximum is not 0, or
      only `contains` is ever drawn, or no operation is asked for. */
  lemma SizeExact(p: Params)
    ensures (forall n: nat, start, sched :: |start| <= p.maxsz && !Run(p, n, start, sched).lock ==>
      Run(p, n, start, sched).size <= p.maxsz)
      <==> p.maxsz != 0 || p.cp >= 100 || p.ttop <= 0
  {
    if Bounded(p) {
      forall n: nat, start, sched | |start| <= p.maxsz && !Run(p, n, start, sched).lock
        ensures Run(p, n, start, sched).size <= p.maxsz
      {
        SizeWhenFree(p, n, start, sched);
      }
    } else if p.maxsz == 0 {
      var sched := MaximumZero(p, 0);
      var none: set<int> := {};
      assert |none| <= p.maxsz && !Run(p, 1, none, sched).lock && Run(p, 1, none, sched).size > p.maxsz;
    }
  }
}
