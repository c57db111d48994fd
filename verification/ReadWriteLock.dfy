/**
 The reader-writer monitor of All_Summer2017/testProject/framework/cpp_framework.h (`ReentrantReadWriteLock`)
 as a state machine.

 Each statement of the four methods is one step; the mutex, the two condition variables and the
 four counters are shared. A signal wakes a sleeper of the schedule's choice, a broadcast wakes all,
 sleepers may also wake for no reason, and a thread that has been woken competes for the mutex with
 everyone else. A thread calls `readerUnlock` or `writerUnlock` only after the matching lock call.
 */
module ReadWriteLock {
  import opened Options

  /** Program points, named after the statement that comes next. */
  datatype PC =
    | Out
    // readerLock
    | RLock                  // lock the mutex
    | RTest                  // write_waiters > 0 || writers > 0 ?
    | RCountWait             // ++read_waiters
    | RSleep                 // cond_wait(read): give up the mutex
    | RAsleep
    | RAwake                 // woken: lock the mutex again
    | RRetest                // writers > 0 || write_waiters > 0 ?
    | RUncountWait           // --read_waiters
    | RCount                 // ++readers
    | RLeave                 // unlock the mutex
    | Reading
    // readerUnlock
    | RULock | RUncount | RUSignal | RULeave
    // writerLock
    | WLock | WTest | WCountWait | WSleep | WAsleep | WAwake | WRetest | WUncountWait | WSet | WLeave
    | Writing
    // writerUnlock
    | WULock | WClear | WUSignal | WULeave

  datatype State = State(mutex: Option<nat>, readers: int, writers: int, readWaiters: int, writeWaiters: int,
    threads: seq<PC>)

  /** Thread `t` takes its next step. `write` picks the next call of a thread that is out; `wake` is the
      sleeper a signal wakes. `Spurious` wakes a sleeper for no reason. */
  datatype Choice = Go(t: nat, write: bool, wake: nat) | Spurious(t: nat)

  function Init(n: nat): State {
    State(None, 0, 0, 0, 0, seq(n, i => Out))
  }

  function At(s: State, t: nat, pc: PC): State
    requires t < |s.threads|
  {
    s.(threads := s.threads[t := pc])
  }

  /** Locking blocks, that is stutters, while someone holds the mutex. */
  function Acquire(s: State, t: nat, pc: PC): State
    requires t < |s.threads|
  {
    if s.mutex.None? then At(s.(mutex := Some(t)), t, pc) else s
  }

  function Release(s: State, t: nat, pc: PC): State
    requires t < |s.threads|
  {
    At(s.(mutex := None), t, pc)
  }

  function Woken(pc: PC): PC { if pc.RAsleep? then RAwake else if pc.WAsleep? then WAwake else pc }

  function Broadcast(threads: seq<PC>): (r: seq<PC>)
    ensures |r| == |threads|
  {
    seq(|threads|, i requires 0 <= i < |threads| => if threads[i].RAsleep? then RAwake else threads[i])
  }

  predicate SomeoneSleepsOnWrite(threads: seq<PC>) { exists u :: 0 <= u < |threads| && threads[u].WAsleep? }

  /** `cond_signal(write)` by `t`, which then goes to `pc`: it wakes a sleeper if there is one. */
  function Signal(s: State, t: nat, wake: nat, pc: PC): State
    requires t < |s.threads|
  {
    if wake < |s.threads| && s.threads[wake].WAsleep? && wake != t
      then At(s.(threads := s.threads[wake := WAwake]), t, pc)
    else if SomeoneSleepsOnWrite(s.threads) then s
    else At(s, t, pc)
  }

  function Step(s: State, ch: Choice): (s': State)
    ensures |s'.threads| == |s.threads|
  {
    var t := ch.t;
    if t >= |s.threads| then s
    else if ch.Spurious? then At(s, t, Woken(s.threads[t]))
    else match s.threads[t]
      case Out => At(s, t, if ch.write then WLock else RLock)
      case RLock => Acquire(s, t, RTest)
      case RTest => At(s, t, if s.writeWaiters > 0 || s.writers > 0 then RCountWait else RCount)
      case RCountWait => At(s.(readWaiters := s.readWaiters + 1), t, RSleep)
      case RSleep => Release(s, t, RAsleep)
      case RAsleep => s
      case RAwake => Acquire(s, t, RRetest)
      case RRetest => At(s, t, if s.writers > 0 || s.writeWaiters > 0 then RSleep else RUncountWait)
      case RUncountWait => At(s.(readWaiters := s.readWaiters - 1), t, RCount)
      case RCount => At(s.(readers := s.readers + 1), t, RLeave)
      case RLeave => Release(s, t, Reading)
      case Reading => At(s, t, RULock)
      case RULock => Acquire(s, t, RUncount)
      case RUncount => At(s.(readers := s.readers - 1), t, RUSignal)
      case RUSignal => if s.writeWaiters > 0 then Signal(s, t, ch.wake, RULeave) else At(s, t, RULeave)
      case RULeave => Release(s, t, Out)
      case WLock => Acquire(s, t, WTest)
      case WTest => At(s, t, if s.writers > 0 || s.readers > 0 then WCountWait else WSet)
      case WCountWait => At(s.(writeWaiters := s.writeWaiters + 1), t, WSleep)
      case WSleep => Release(s, t, WAsleep)
      case WAsleep => s
      case WAwake => Acquire(s, t, WRetest)
      case WRetest => At(s, t, if s.writers > 0 || s.readers > 0 then WSleep else WUncountWait)
      case WUncountWait => At(s.(writeWaiters := s.writeWaiters - 1), t, WSet)
      case WSet => At(s.(writers := 1), t, WLeave)
      case WLeave => Release(s, t, Writing)
      case Writing => At(s, t, WULock)
      case WULock => Acquire(s, t, WClear)
      case WClear => At(s.(writers := 0), t, WUSignal)
      case WUSignal =>
        if s.writeWaiters > 0 then Signal(s, t, ch.wake, WULeave)
        else if s.readWaiters > 0 then At(s.(threads := Broadcast(s.threads)), t, WULeave)
        else At(s, t, WULeave)
      case WULeave => Release(s, t, Out)
  }

  function Run(n: nat, sched: seq<Choice>): (s: State)
    ensures |s.threads| == n
  {
    if sched == [] then Init(n) else Step(Run(n, sched[..|sched| - 1]), sched[|sched| - 1])
  }

  // ---------------------------------------------------------------- the invariant

  /** What the counters count. */
  datatype Role = IsReader | IsWriter | ReadWaiter | WriteWaiter

  predicate Has(pc: PC, k: Role) {
    match k
    case IsReader => pc.RLeave? || pc.Reading? || pc.RULock? || pc.RUncount?
    case IsWriter => pc.WLeave? || pc.Writing? || pc.WULock? || pc.WClear?
    case ReadWaiter => pc.RSleep? || pc.RAsleep? || pc.RAwake? || pc.RRetest? || pc.RUncountWait?
    case WriteWaiter => pc.WSleep? || pc.WAsleep? || pc.WAwake? || pc.WRetest? || pc.WUncountWait?
  }

  function Count(threads: seq<PC>, k: Role): nat {
    if threads == [] then 0 else Count(threads[..|threads| - 1], k) + if Has(threads[|threads| - 1], k) then 1 else 0
  }

  /** Points inside the critical section of the mutex. */
  predicate InSection(pc: PC) {
    !(pc.Out? || pc.RLock? || pc.RAsleep? || pc.RAwake? || pc.Reading? || pc.RULock?
      || pc.WLock? || pc.WAsleep? || pc.WAwake? || pc.Writing? || pc.WULock?)
  }

  /** What a thread knows of the counters while it holds the mutex. */
  predicate Knows(s: State, pc: PC) {
    match pc
    case RCountWait => s.writers > 0 || s.writeWaiters > 0
    case RSleep => s.writers > 0 || s.writeWaiters > 0
    case RUncountWait => s.writers == 0 && s.writeWaiters == 0
    case RCount => s.writers == 0 && s.writeWaiters == 0
    case WCountWait => s.writers > 0 || s.readers > 0
    case WSleep => s.writers > 0 || s.readers > 0
    case WUncountWait => s.writers == 0 && s.readers == 0
    case WSet => s.writers == 0 && s.readers == 0
    case _ => true
  }

  ghost predicate Counted(s: State) {
    && s.readers == Count(s.threads, IsReader) && s.writers == Count(s.threads, IsWriter)
    && s.readWaiters == Count(s.threads, ReadWaiter) && s.writeWaiters == Count(s.threads, WriteWaiter)
  }

  ghost predicate Exclusive(s: State) {
    && (forall t :: 0 <= t < |s.threads| && InSection(s.threads[t]) ==> s.mutex == Some(t))
    && (forall t :: 0 <= t < |s.threads| ==> Knows(s, s.threads[t]))
    && s.writers <= 1 && (s.writers == 1 ==> s.readers == 0)
  }

  /** No reader sleeps when nothing stands in its way, unless the mutex holder is about to see to it. */
  ghost predicate ReadersWoken(s: State) {
    s.writers == 0 && s.writeWaiters == 0 ==>
      forall u :: 0 <= u < |s.threads| && s.threads[u].RAsleep? ==>
        exists t :: 0 <= t < |s.threads| && (s.threads[t].WUSignal? || s.threads[t].WSet?)
  }

  predicate Lively(pc: PC) {
    pc.WAwake? || pc.WRetest? || pc.WUncountWait? || pc.WSet? || pc.RUncountWait? || pc.RCount? || pc.RUSignal?
      || pc.WUSignal?
  }

  /** When the lock is free and writers wait, one of them is on its way, or the mutex holder is about to see to it. */
  ghost predicate WriterWoken(s: State) {
    s.readers == 0 && s.writers == 0 && s.writeWaiters > 0 ==> exists t :: 0 <= t < |s.threads| && Lively(s.threads[t])
  }

  ghost predicate Inv(s: State) {
    Counted(s) && Exclusive(s) && ReadersWoken(s) && WriterWoken(s)
  }

  // ---------------------------------------------------------------- counting

  lemma {:induction false} CountUpdate(threads: seq<PC>, t: nat, pc: PC, k: Role)
    requires t < |threads|
    ensures Count(threads[t := pc], k) + (if Has(threads[t], k) then 1 else 0) == Count(threads, k) + if Has(pc, k)
      then 1 else 0
    decreases |threads|
  {
    var n := |threads| - 1;
    if t < n {
      CountUpdate(threads[..n], t, pc, k);
      assert threads[t := pc][..n] == threads[..n][t := pc];
    } else {
      assert threads[t := pc][..n] == threads[..n];
    }
  }

  /** A count is positive exactly when someone has the role. */
  lemma {:induction false} CountPositive(threads: seq<PC>, k: Role)
    ensures Count(threads, k) > 0 <==> exists t :: 0 <= t < |threads| && Has(threads[t], k)
  {
    if threads != [] {
      var n := |threads| - 1;
      CountPositive(threads[..n], k);
      if t :| 0 <= t < |threads| && Has(threads[t], k) && t < n {
        assert Has(threads[..n][t], k);
      }
      if t :| 0 <= t < n && Has(threads[..n][t], k) {
        assert Has(threads[t], k);
      }
    }
  }

  /** Two threads with the role count at least two. */
  lemma {:induction false} CountTwo(threads: seq<PC>, k: Role, t: nat, u: nat)
    requires t < u < |threads| && Has(threads[t], k) && Has(threads[u], k)
    ensures Count(threads, k) >= 2
  {
    var n := |threads| - 1;
    if u < n {
      CountTwo(threads[..n], k, t, u);
    } else {
      assert Has(threads[..n][t], k);
      CountPositive(threads[..n], k);
    }
  }

  lemma {:induction false} CountBroadcast(threads: seq<PC>, k: Role)
    ensures Count(Broadcast(threads), k) == Count(threads, k)
  {
    if threads != [] {
      var n := |threads| - 1;
      CountBroadcast(threads[..n], k);
      assert Broadcast(threads)[..n] == Broadcast(threads[..n]);
    }
  }

  // ---------------------------------------------------------------- every step

  predicate Signals(s: State, ch: Choice) {
    ch.Go? && ch.t < |s.threads| && (s.threads[ch.t].RUSignal? || s.threads[ch.t].WUSignal?)
  }

  /** Apart from signals, a step moves one thread. */
  lemma OneMoves(s: State, ch: Choice)
    requires ch.t < |s.threads| && !Signals(s, ch)
    ensures var s' := Step(s, ch); s'.threads == s.threads[ch.t := s'.threads[ch.t]]
  {
    var s' := Step(s, ch);
    forall u | 0 <= u < |s.threads| && u != ch.t ensures s'.threads[u] == s.threads[u] {}
  }

  function Counter(s: State, k: Role): int {
    match k
    case IsReader => s.readers
    case IsWriter => s.writers
    case ReadWaiter => s.readWaiters
    case WriteWaiter => s.writeWaiters
  }

  function One(b: bool): nat { if b then 1 else 0 }

  ghost predicate Tracks(s: State, s': State, t: nat, k: Role)
    requires t < |s.threads| == |s'.threads|
  {
    Counter(s', k) + One(Has(s.threads[t], k)) == Counter(s, k) + One(Has(s'.threads[t], k))
  }

  lemma ReaderStep(s: State, ch: Choice)
    requires ch.t < |s.threads| && !Signals(s, ch)
    ensures Tracks(s, Step(s, ch), ch.t, IsReader)
  {
  }

  lemma WriterStep(s: State, ch: Choice)
    requires ch.t < |s.threads| && !Signals(s, ch) && Knows(s, s.threads[ch.t])
    requires s.threads[ch.t].WClear? ==> s.writers == 1
    ensures Tracks(s, Step(s, ch), ch.t, IsWriter)
  {
  }

  lemma ReadWaiterStep(s: State, ch: Choice)
    requires ch.t < |s.threads| && !Signals(s, ch)
    ensures Tracks(s, Step(s, ch), ch.t, ReadWaiter)
  {
  }

  lemma WriteWaiterStep(s: State, ch: Choice)
    requires ch.t < |s.threads| && !Signals(s, ch)
    ensures Tracks(s, Step(s, ch), ch.t, WriteWaiter)
  {
  }

  /** A thread moves a counter exactly when it takes on or gives up the role. */
  lemma CounterStep(s: State, ch: Choice, k: Role)
    requires ch.t < |s.threads| && !Signals(s, ch) && Knows(s, s.threads[ch.t])
    requires s.threads[ch.t].WClear? ==> s.writers == 1
    ensures Tracks(s, Step(s, ch), ch.t, k)
  {
    match k
    case IsReader => ReaderStep(s, ch);
    case IsWriter => WriterStep(s, ch);
    case ReadWaiter => ReadWaiterStep(s, ch);
    case WriteWaiter => WriteWaiterStep(s, ch);
  }

  lemma HoldersCount(s: State, t: nat)
    requires Counted(s) && t < |s.threads|
    ensures Has(s.threads[t], IsWriter) ==> s.writers > 0
    ensures Has(s.threads[t], IsReader) ==> s.readers > 0
  {
    CountPositive(s.threads, IsWriter);
    CountPositive(s.threads, IsReader);
  }

  lemma CountedStep(s: State, ch: Choice)
    requires Inv(s) && ch.t < |s.threads| && !Signals(s, ch)
    ensures Counted(Step(s, ch))
  {
    var t, s' := ch.t, Step(s, ch);
    HoldersCount(s, t);
    forall k ensures Counter(s', k) == Count(s'.threads, k) {
      assert Counter(s, k) == Count(s.threads, k);
      CounterStep(s, ch, k);
      OneMoves(s, ch);
      CountUpdate(s.threads, t, s'.threads[t], k);
    }
    assert Counter(s', IsReader) == Count(s'.threads, IsReader) && Counter(s', IsWriter) == Count(s'.threads, IsWriter);
    assert Counter(s', ReadWaiter) == Count(s'.threads, ReadWaiter)
      && Counter(s', WriteWaiter) == Count(s'.threads, WriteWaiter);
  }

  /** The moving thread keeps the mutex discipline, and learns no more than the counters say. */
  lemma MoverStep(s: State, ch: Choice)
    requires s.readers >= 0 && s.writers >= 0 && s.writeWaiters >= 0
    requires ch.t < |s.threads| && !Signals(s, ch) && Knows(s, s.threads[ch.t])
    requires InSection(s.threads[ch.t]) ==> s.mutex == Some(ch.t)
    ensures var s', t := Step(s, ch), ch.t;
      && (InSection(s'.threads[t]) ==> s'.mutex == Some(t)) && Knows(s', s'.threads[t])
      && (s'.mutex == s.mutex || s.mutex.None? || s.mutex == Some(t))
      && (s.mutex != Some(t) ==> forall k :: Counter(s', k) == Counter(s, k))
  {
  }

  /** A thread outside the section relies on nothing. */
  lemma KnowsNothing(s: State, pc: PC)
    requires !InSection(pc)
    ensures Knows(s, pc)
  {
  }

  lemma BoundStep(s: State, ch: Choice)
    requires Inv(s) && ch.t < |s.threads| && !Signals(s, ch)
    ensures var s' := Step(s, ch); s'.writers <= 1 && (s'.writers == 1 ==> s'.readers == 0)
  {
    assert Knows(s, s.threads[ch.t]);
    HoldersCount(s, ch.t);
  }

  lemma ExclusiveStep(s: State, ch: Choice)
    requires Inv(s) && ch.t < |s.threads| && !Signals(s, ch)
    ensures Exclusive(Step(s, ch))
  {
    var t, s' := ch.t, Step(s, ch);
    OneMoves(s, ch);
    MoverStep(s, ch);
    BoundStep(s, ch);
    forall u | 0 <= u < |s'.threads| && u != t
      ensures (InSection(s'.threads[u]) ==> s'.mutex == Some(u)) && Knows(s', s'.threads[u])
    {
      assert s'.threads[u] == s.threads[u] && Knows(s, s.threads[u]);
      if InSection(s.threads[u]) {
        SameCounters(s, s', s.threads[u]);
      } else {
        KnowsNothing(s', s.threads[u]);
      }
    }
  }

  lemma SameCounters(s: State, s': State, pc: PC)
    requires Knows(s, pc) && forall k :: Counter(s', k) == Counter(s, k)
    ensures Knows(s', pc)
  {
    assert Counter(s', IsReader) == Counter(s, IsReader) && Counter(s', IsWriter) == Counter(s, IsWriter);
    assert Counter(s', WriteWaiter) == Counter(s, WriteWaiter);
  }

  /** Outside the section nobody is a waiter about to sleep. */
  lemma ReadersWokenStep(s: State, ch: Choice)
    requires Inv(s) && ch.t < |s.threads| && !Signals(s, ch)
    ensures ReadersWoken(Step(s, ch))
  {
    var t, s' := ch.t, Step(s, ch);
    OneMoves(s, ch);
    assert Knows(s, s.threads[t]);
    forall u | s'.writers == 0 && s'.writeWaiters == 0 && 0 <= u < |s'.threads| && s'.threads[u].RAsleep?
      ensures exists v :: 0 <= v < |s'.threads| && (s'.threads[v].WUSignal? || s'.threads[v].WSet?)
    {
      if s'.threads[t].WUSignal? || s'.threads[t].WSet? {
      } else {
        assert s.writers == 0 && s.writeWaiters == 0 && s.threads[u].RAsleep?;
        var v :| 0 <= v < |s.threads| && (s.threads[v].WUSignal? || s.threads[v].WSet?);
        assert v != t && s'.threads[v] == s.threads[v];
      }
    }
  }

  lemma WriterWokenStep(s: State, ch: Choice)
    requires Inv(s) && ch.t < |s.threads| && !Signals(s, ch)
    ensures WriterWoken(Step(s, ch))
  {
    var t, s' := ch.t, Step(s, ch);
    OneMoves(s, ch);
    assert Knows(s, s.threads[t]);
    if s'.readers == 0 && s'.writers == 0 && s'.writeWaiters > 0 && !Lively(s'.threads[t]) {
      assert s.readers == 0 && s.writers == 0 && s.writeWaiters > 0;
      var v :| 0 <= v < |s.threads| && Lively(s.threads[v]);
      assert v != t && s'.threads[v] == s.threads[v];
    }
  }

  // ---------------------------------------------------------------- signals

  /** A sleeper becomes an awake waiter: nothing else changes. */
  lemma WakeInv(s: State, u: nat)
    requires Inv(s) && u < |s.threads| && s.threads[u].WAsleep?
    ensures Inv(At(s, u, WAwake))
  {
    var ch := Spurious(u);
    assert Step(s, ch) == At(s, u, WAwake);
    CountedStep(s, ch);
    ExclusiveStep(s, ch);
    ReadersWokenStep(s, ch);
    WriterWokenStep(s, ch);
  }

  /** While someone is in the section, every write waiter outside is asleep or awake. */
  lemma WaiterSomewhere(s: State, t: nat)
    requires Inv(s) && t < |s.threads| && InSection(s.threads[t]) && !Has(s.threads[t], WriteWaiter)
    requires s.writeWaiters > 0
    ensures exists u :: 0 <= u < |s.threads| && u != t && (s.threads[u].WAsleep? || s.threads[u].WAwake?)
  {
    CountPositive(s.threads, WriteWaiter);
    var u :| 0 <= u < |s.threads| && Has(s.threads[u], WriteWaiter);
    assert !InSection(s.threads[u]);
  }

  predicate Leaves(pc: PC, pc': PC) { (pc.RUSignal? && pc' == RULeave) || (pc.WUSignal? && pc' == WULeave) }

  lemma DutyCounted(s: State, t: nat, pc: PC)
    requires Counted(s) && t < |s.threads| && Leaves(s.threads[t], pc)
    ensures Counted(At(s, t, pc))
  {
    forall k ensures Count(s.threads[t := pc], k) == Count(s.threads, k) { CountUpdate(s.threads, t, pc, k); }
  }

  lemma DutyExclusive(s: State, t: nat, pc: PC)
    requires Exclusive(s) && t < |s.threads| && Leaves(s.threads[t], pc)
    ensures Exclusive(At(s, t, pc))
  {
    var s' := At(s, t, pc);
    forall u | 0 <= u < |s.threads|
      ensures (InSection(s'.threads[u]) ==> s'.mutex == Some(u)) && Knows(s', s'.threads[u])
    {
      assert Knows(s, s.threads[u]) && (u != t ==> s'.threads[u] == s.threads[u]);
    }
  }

  lemma DutyReaders(s: State, t: nat, pc: PC)
    requires Exclusive(s) && ReadersWoken(s) && t < |s.threads| && Leaves(s.threads[t], pc)
    requires s.threads[t].WUSignal? && s.writeWaiters == 0 ==> forall u :: 0 <= u < |s.threads| ==>
      !s.threads[u].RAsleep?
    ensures ReadersWoken(At(s, t, pc))
  {
    var s' := At(s, t, pc);
    forall u | s'.writers == 0 && s'.writeWaiters == 0 && 0 <= u < |s'.threads| && s'.threads[u].RAsleep?
      ensures exists v :: 0 <= v < |s'.threads| && (s'.threads[v].WUSignal? || s'.threads[v].WSet?)
    {
      assert s.threads[u].RAsleep?;
      var v :| 0 <= v < |s.threads| && (s.threads[v].WUSignal? || s.threads[v].WSet?);
      assert v == t || s'.threads[v] == s.threads[v];
    }
  }

  /** The signalling thread leaves once its duty is done. */
  lemma DutyDone(s: State, t: nat, pc: PC)
    requires Inv(s) && t < |s.threads| && Leaves(s.threads[t], pc)
    requires s.writeWaiters > 0 ==> exists u :: 0 <= u < |s.threads| && s.threads[u].WAwake?
    requires s.threads[t].WUSignal? && s.writeWaiters == 0 ==> forall u :: 0 <= u < |s.threads| ==>
      !s.threads[u].RAsleep?
    ensures Inv(At(s, t, pc))
  {
    var s' := At(s, t, pc);
    DutyCounted(s, t, pc);
    DutyExclusive(s, t, pc);
    DutyReaders(s, t, pc);
    if s.writeWaiters > 0 {
      var u :| 0 <= u < |s.threads| && s.threads[u].WAwake?;
      assert s'.threads[u].WAwake?;
    }
  }

  lemma SignalInv(s: State, t: nat, wake: nat, pc: PC)
    requires Inv(s) && t < |s.threads| && Leaves(s.threads[t], pc)
    requires s.writeWaiters > 0
    ensures Inv(Signal(s, t, wake, pc))
  {
    WaiterSomewhere(s, t);
    if wake < |s.threads| && s.threads[wake].WAsleep? {
      WakeInv(s, wake);
      var s1 := At(s, wake, WAwake);
      assert s1.threads[wake].WAwake?;
      DutyDone(s1, t, pc);
    } else if !SomeoneSleepsOnWrite(s.threads) {
      DutyDone(s, t, pc);
    }
  }

  lemma BroadcastInv(s: State)
    requires Inv(s)
    ensures var s' := s.(threads := Broadcast(s.threads));
      Inv(s') && forall u :: 0 <= u < |s'.threads| ==> !s'.threads[u].RAsleep?
  {
    var s' := s.(threads := Broadcast(s.threads));
    forall k ensures Count(s'.threads, k) == Count(s.threads, k) { CountBroadcast(s.threads, k); }
    forall u | 0 <= u < |s.threads| ensures !s'.threads[u].RAsleep? && Lively(s'.threads[u]) == Lively(s.threads[u]) {}
    forall u | 0 <= u < |s.threads| ensures Knows(s', s'.threads[u]) { assert Knows(s, s.threads[u]); }
    if v :| 0 <= v < |s.threads| && Lively(s.threads[v]) { assert Lively(s'.threads[v]); }
  }

  lemma ReadersInv(s: State, ch: Choice)
    requires Inv(s) && Signals(s, ch) && s.writeWaiters <= 0 && s.threads[ch.t].WUSignal? && s.readWaiters > 0
    ensures Inv(Step(s, ch))
  {
    BroadcastInv(s);
    DutyDone(s.(threads := Broadcast(s.threads)), ch.t, WULeave);
  }

  lemma NobodyInv(s: State, ch: Choice)
    requires Inv(s) && Signals(s, ch) && s.writeWaiters <= 0 && !(s.threads[ch.t].WUSignal? && s.readWaiters > 0)
    ensures Inv(Step(s, ch))
  {
    CountPositive(s.threads, ReadWaiter);
    DutyDone(s, ch.t, if s.threads[ch.t].RUSignal? then RULeave else WULeave);
  }

  lemma SignalsInv(s: State, ch: Choice)
    requires Inv(s) && Signals(s, ch)
    ensures Inv(Step(s, ch))
  {
    if s.writeWaiters > 0 {
      SignalInv(s, ch.t, ch.wake, if s.threads[ch.t].RUSignal? then RULeave else WULeave);
    } else if s.threads[ch.t].WUSignal? && s.readWaiters > 0 {
      ReadersInv(s, ch);
    } else {
      NobodyInv(s, ch);
    }
  }

  // ---------------------------------------------------------------- whole runs

  lemma StepInv(s: State, ch: Choice)
    requires Inv(s)
    ensures Inv(Step(s, ch))
  {
    if ch.t >= |s.threads| {
    } else if Signals(s, ch) {
      SignalsInv(s, ch);
    } else {
      CountedStep(s, ch);
      ExclusiveStep(s, ch);
      ReadersWokenStep(s, ch);
      WriterWokenStep(s, ch);
    }
  }

  lemma {:induction false} NobodyCounts(n: nat, k: Role)
    ensures Count(seq(n, i => Out), k) == 0
  {
    if n > 0 {
      NobodyCounts(n - 1, k);
      assert seq(n, i => Out)[..n - 1] == seq(n - 1, i => Out);
    }
  }

  lemma {:induction false} RunInv(n: nat, sched: seq<Choice>)
    ensures Inv(Run(n, sched))
  {
    if sched == [] {
      forall k ensures Count(Init(n).threads, k) == 0 { NobodyCounts(n, k); }
    } else {
      RunInv(n, sched[..|sched| - 1]);
      StepInv(Run(n, sched[..|sched| - 1]), sched[|sched| - 1]);
    }
  }

  /** Never a writer together with a reader or with a second writer. */
  lemma MutualExclusion(n: nat, sched: seq<Choice>, t: nat, u: nat)
    requires t < n && u < n && t != u && Run(n, sched).threads[t].Writing?
    ensures !Run(n, sched).threads[u].Writing? && !Run(n, sched).threads[u].Reading?
  {
    var s := Run(n, sched);
    RunInv(n, sched);
    HoldersCount(s, t);
    HoldersCount(s, u);
    if s.threads[u].Writing? {
      CountTwo(s.threads, IsWriter, if t < u then t else u, if t < u then u else t);
    }
  }

  predicate Sleeping(pc: PC) { pc.RAsleep? || pc.WAsleep? }

  /** Nobody is in the section, reads or writes, or is between being let in and leaving. */
  predicate LockIdle(s: State) { s.mutex.None? && s.readers == 0 && s.writers == 0 }

  lemma WriterOnItsWay(s: State, u: nat) returns (t: nat)
    requires Inv(s) && LockIdle(s) && u < |s.threads| && Sleeping(s.threads[u])
    ensures s.writeWaiters > 0 && t < |s.threads| && s.threads[t].WAwake?
  {
    forall v | 0 <= v < |s.threads| ensures !InSection(s.threads[v]) {}
    assert s.writeWaiters > 0 by {
      CountPositive(s.threads, WriteWaiter);
      assert s.threads[u].WAsleep? ==> Has(s.threads[u], WriteWaiter);
    }
    t :| 0 <= t < |s.threads| && Lively(s.threads[t]);
  }

  /** A reader does not sleep, whoever else reads, while the mutex is free and no writer holds the lock or waits for
      it. */
  lemma NoReaderLeftAsleep(n: nat, sched: seq<Choice>, u: nat)
    requires var s := Run(n, sched); u < n && s.mutex.None? && s.writers == 0 && s.writeWaiters == 0
    ensures !Run(n, sched).threads[u].RAsleep?
  {
    var s := Run(n, sched);
    RunInv(n, sched);
    forall v | 0 <= v < |s.threads| ensures !InSection(s.threads[v]) {}
  }

  /** No wake-up is lost: when the lock is idle and someone sleeps, a writer waits and one has been signalled. */
  lemma NoLostWakeup(n: nat, sched: seq<Choice>, u: nat)
    requires u < n && LockIdle(Run(n, sched)) && Sleeping(Run(n, sched).threads[u])
    ensures var s := Run(n, sched);
      && s.writeWaiters > 0
      && exists t :: 0 <= t < n && s.threads[t].WAwake? && Step(s, Go(t, true, 0)).threads[t].WRetest?
  {
    RunInv(n, sched);
    var t := WriterOnItsWay(Run(n, sched), u);
    assert Step(Run(n, sched), Go(t, true, 0)).threads[t].WRetest?;
  }

  lemma WaiterEnters(s: State, t: nat)
    requires t < |s.threads| && s.threads[t].WUncountWait?
    ensures var go := Go(t, true, 0); Step(Step(Step(s, go), go), go).threads[t].Writing?
  {
  }

  /** A woken writer that finds the lock idle gets in: its retest lets it through. */
  lemma WokenWriterEnters(s: State, t: nat)
    requires Inv(s) && LockIdle(s) && t < |s.threads| && s.threads[t].WAwake?
    ensures var go := Go(t, true, 0);
      Step(Step(Step(Step(Step(s, go), go), go), go), go).threads[t].Writing?
  {
    var go := Go(t, true, 0);
    var s2 := Step(Step(s, go), go);
    assert s2.threads[t] == WUncountWait;
    WaiterEnters(s2, t);
  }
}
