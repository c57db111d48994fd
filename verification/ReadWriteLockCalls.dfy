/**
 What a call of the reader-writer monitor does when nobody is in its way, and that a thread is rid of the lock only by
 the unlock that matches its call.
 */
module ReadWriteLockCalls {
  import opened Options
  import opened ReadWriteLock

  // ---------------------------------------------------------------- a call that finds the mutex free

  /** `k` steps of thread `t`, while the others stand still; a signal of its wakes `wake`. */
  function Alone(s: State, t: nat, wake: nat, k: nat): (s': State)
    ensures |s'.threads| == |s.threads|
  {
    if k == 0 then s else Step(Alone(s, t, wake, k - 1), Go(t, false, wake))
  }

  /** One step more, from `s1`, in which thread `t` is at `pc`. */
  lemma More(s: State, t: nat, wake: nat, k: nat, s1: State, pc: PC)
    requires t < |s1.threads| && Alone(s, t, wake, k) == At(s1, t, pc)
    ensures Alone(s, t, wake, k + 1) == Step(At(s1, t, pc), Go(t, false, wake))
  {
  }

  lemma Again(s: State, t: nat, pc: PC, pc': PC)
    requires t < |s.threads|
    ensures At(At(s, t, pc), t, pc') == At(s, t, pc')
  {
    assert s.threads[t := pc][t := pc'] == s.threads[t := pc'];
  }

  /** The mutex, free until now, is taken by `t`, which goes to `pc`. */
  lemma Takes(s: State, t: nat, wake: nat, pc: PC)
    requires t < |s.threads| && s.mutex.None? && Step(s, Go(t, false, wake)) == Acquire(s, t, pc)
    ensures Alone(s, t, wake, 1) == At(s.(mutex := Some(t)), t, pc)
  {
    assert Alone(s, t, wake, 0) == s;
  }

  /** A step inside the critical section. */
  lemma Goes(s: State, t: nat, wake: nat, k: nat, s1: State, pc: PC, s2: State, pc': PC)
    requires t < |s1.threads| && Alone(s, t, wake, k) == At(s1, t, pc) && s2.threads == s1.threads
    requires Step(At(s1, t, pc), Go(t, false, wake)) == At(At(s2, t, pc), t, pc')
    ensures Alone(s, t, wake, k + 1) == At(s2, t, pc')
  {
    More(s, t, wake, k, s1, pc);
    Again(s2, t, pc, pc');
  }

  lemma ReaderLetIn(s: State, t: nat, wake: nat)
    requires t < |s.threads| && s.threads[t].RLock? && s.mutex.None? && s.writers <= 0 && s.writeWaiters <= 0
    ensures Alone(s, t, wake, 4) == At(s.(readers := s.readers + 1), t, Reading)
  {
    var held := s.(mutex := Some(t));
    var counted := held.(readers := s.readers + 1);
    Takes(s, t, wake, RTest);
    Goes(s, t, wake, 1, held, RTest, held, RCount);
    Goes(s, t, wake, 2, held, RCount, counted, RLeave);
    Goes(s, t, wake, 3, counted, RLeave, counted.(mutex := None), Reading);
  }

  lemma ReaderSleeps(s: State, t: nat, wake: nat)
    requires t < |s.threads| && s.threads[t].RLock? && s.mutex.None? && (s.writers > 0 || s.writeWaiters > 0)
    ensures Alone(s, t, wake, 4) == At(s.(readWaiters := s.readWaiters + 1), t, RAsleep)
  {
    var held := s.(mutex := Some(t));
    var counted := held.(readWaiters := s.readWaiters + 1);
    Takes(s, t, wake, RTest);
    Goes(s, t, wake, 1, held, RTest, held, RCountWait);
    Goes(s, t, wake, 2, held, RCountWait, counted, RSleep);
    Goes(s, t, wake, 3, counted, RSleep, counted.(mutex := None), RAsleep);
  }

  /** `readerLock`: the reader is let in if no writer holds the lock or waits for it, and sleeps otherwise. */
  lemma ReaderLock(s: State, t: nat, wake: nat)
    requires t < |s.threads| && s.threads[t].RLock? && s.mutex.None?
    ensures Alone(s, t, wake, 4) == if s.writers > 0 || s.writeWaiters > 0
      then At(s.(readWaiters := s.readWaiters + 1), t, RAsleep) else At(s.(readers := s.readers + 1), t, Reading)
  {
    if s.writers > 0 || s.writeWaiters > 0 {
      ReaderSleeps(s, t, wake);
    } else {
      ReaderLetIn(s, t, wake);
    }
  }

  lemma WriterLetIn(s: State, t: nat, wake: nat)
    requires t < |s.threads| && s.threads[t].WLock? && s.mutex.None? && s.writers <= 0 && s.readers <= 0
    ensures Alone(s, t, wake, 4) == At(s.(writers := 1), t, Writing)
  {
    var held := s.(mutex := Some(t));
    var counted := held.(writers := 1);
    Takes(s, t, wake, WTest);
    Goes(s, t, wake, 1, held, WTest, held, WSet);
    Goes(s, t, wake, 2, held, WSet, counted, WLeave);
    Goes(s, t, wake, 3, counted, WLeave, counted.(mutex := None), Writing);
  }

  lemma WriterSleeps(s: State, t: nat, wake: nat)
    requires t < |s.threads| && s.threads[t].WLock? && s.mutex.None? && (s.writers > 0 || s.readers > 0)
    ensures Alone(s, t, wake, 4) == At(s.(writeWaiters := s.writeWaiters + 1), t, WAsleep)
  {
    var held := s.(mutex := Some(t));
    var counted := held.(writeWaiters := s.writeWaiters + 1);
    Takes(s, t, wake, WTest);
    Goes(s, t, wake, 1, held, WTest, held, WCountWait);
    Goes(s, t, wake, 2, held, WCountWait, counted, WSleep);
    Goes(s, t, wake, 3, counted, WSleep, counted.(mutex := None), WAsleep);
  }

  /** `writerLock`: the writer is let in if nobody holds the lock, and sleeps otherwise. */
  lemma WriterLock(s: State, t: nat, wake: nat)
    requires t < |s.threads| && s.threads[t].WLock? && s.mutex.None?
    ensures Alone(s, t, wake, 4) == if s.writers > 0 || s.readers > 0
      then At(s.(writeWaiters := s.writeWaiters + 1), t, WAsleep) else At(s.(writers := 1), t, Writing)
  {
    if s.writers > 0 || s.readers > 0 {
      WriterSleeps(s, t, wake);
    } else {
      WriterLetIn(s, t, wake);
    }
  }

  lemma WokenReaderLetIn(s: State, t: nat, wake: nat)
    requires t < |s.threads| && s.threads[t].RAwake? && s.mutex.None? && s.writers <= 0 && s.writeWaiters <= 0
    ensures Alone(s, t, wake, 5) == At(s.(readWaiters := s.readWaiters - 1, readers := s.readers + 1), t, Reading)
  {
    var held := s.(mutex := Some(t));
    var uncounted := held.(readWaiters := s.readWaiters - 1);
    var counted := uncounted.(readers := s.readers + 1);
    Takes(s, t, wake, RRetest);
    Goes(s, t, wake, 1, held, RRetest, held, RUncountWait);
    Goes(s, t, wake, 2, held, RUncountWait, uncounted, RCount);
    Goes(s, t, wake, 3, uncounted, RCount, counted, RLeave);
    Goes(s, t, wake, 4, counted, RLeave, counted.(mutex := None), Reading);
  }

  lemma WokenReaderSleeps(s: State, t: nat, wake: nat)
    requires t < |s.threads| && s.threads[t].RAwake? && s.mutex.None? && (s.writers > 0 || s.writeWaiters > 0)
    ensures Alone(s, t, wake, 3) == At(s, t, RAsleep)
  {
    var held := s.(mutex := Some(t));
    Takes(s, t, wake, RRetest);
    Goes(s, t, wake, 1, held, RRetest, held, RSleep);
    Goes(s, t, wake, 2, held, RSleep, held.(mutex := None), RAsleep);
  }

  /** A woken reader is let in, and no longer counted as waiting, or sleeps on. */
  lemma ReaderWoken(s: State, t: nat, wake: nat)
    requires t < |s.threads| && s.threads[t].RAwake? && s.mutex.None?
    ensures if s.writers > 0 || s.writeWaiters > 0 then Alone(s, t, wake, 3) == At(s, t, RAsleep)
      else Alone(s, t, wake, 5) == At(s.(readWaiters := s.readWaiters - 1, readers := s.readers + 1), t, Reading)
  {
    if s.writers > 0 || s.writeWaiters > 0 {
      WokenReaderSleeps(s, t, wake);
    } else {
      WokenReaderLetIn(s, t, wake);
    }
  }

  lemma WokenWriterLetIn(s: State, t: nat, wake: nat)
    requires t < |s.threads| && s.threads[t].WAwake? && s.mutex.None? && s.writers <= 0 && s.readers <= 0
    ensures Alone(s, t, wake, 5) == At(s.(writeWaiters := s.writeWaiters - 1, writers := 1), t, Writing)
  {
    var held := s.(mutex := Some(t));
    var uncounted := held.(writeWaiters := s.writeWaiters - 1);
    var counted := uncounted.(writers := 1);
    Takes(s, t, wake, WRetest);
    Goes(s, t, wake, 1, held, WRetest, held, WUncountWait);
    Goes(s, t, wake, 2, held, WUncountWait, uncounted, WSet);
    Goes(s, t, wake, 3, uncounted, WSet, counted, WLeave);
    Goes(s, t, wake, 4, counted, WLeave, counted.(mutex := None), Writing);
  }

  lemma WokenWriterSleeps(s: State, t: nat, wake: nat)
    requires t < |s.threads| && s.threads[t].WAwake? && s.mutex.None? && (s.writers > 0 || s.readers > 0)
    ensures Alone(s, t, wake, 3) == At(s, t, WAsleep)
  {
    var held := s.(mutex := Some(t));
    Takes(s, t, wake, WRetest);
    Goes(s, t, wake, 1, held, WRetest, held, WSleep);
    Goes(s, t, wake, 2, held, WSleep, held.(mutex := None), WAsleep);
  }

  /** A woken writer is let in, and no longer counted as waiting, or sleeps on. */
  lemma WriterWoken(s: State, t: nat, wake: nat)
    requires t < |s.threads| && s.threads[t].WAwake? && s.mutex.None?
    ensures if s.writers > 0 || s.readers > 0 then Alone(s, t, wake, 3) == At(s, t, WAsleep)
      else Alone(s, t, wake, 5) == At(s.(writeWaiters := s.writeWaiters - 1, writers := 1), t, Writing)
  {
    if s.writers > 0 || s.readers > 0 {
      WokenWriterSleeps(s, t, wake);
    } else {
      WokenWriterLetIn(s, t, wake);
    }
  }

  /** The threads after a signal for a writer: `wake` no longer sleeps, or nobody did. */
  ghost predicate Signalled(threads: seq<PC>, wake: nat, threads': seq<PC>) {
    if wake < |threads| && threads[wake].WAsleep? then threads' == threads[wake := WAwake]
    else threads' == threads && forall u :: 0 <= u < |threads| ==> !threads[u].WAsleep?
  }

  /** The threads after a broadcast: no reader sleeps, and nobody else notices. */
  ghost predicate AllReadersWoken(threads: seq<PC>, threads': seq<PC>) {
    && |threads'| == |threads|
    && forall u :: 0 <= u < |threads| ==> threads'[u] == if threads[u].RAsleep? then RAwake else threads[u]
  }

  /** `wake` names a sleeping writer, if there is one. */
  ghost predicate Wakes(s: State, wake: nat) {
    (exists u :: 0 <= u < |s.threads| && s.threads[u].WAsleep?) ==> wake < |s.threads| && s.threads[wake].WAsleep?
  }

  lemma SleepersAt(s: State, t: nat, pc: PC)
    requires t < |s.threads| && !s.threads[t].WAsleep? && !pc.WAsleep?
    ensures SomeoneSleepsOnWrite(At(s, t, pc).threads) == SomeoneSleepsOnWrite(s.threads)
  {
    var s' := At(s, t, pc);
    if u :| 0 <= u < |s'.threads| && s'.threads[u].WAsleep? {
      assert s.threads[u].WAsleep?;
    }
    if u :| 0 <= u < |s.threads| && s.threads[u].WAsleep? {
      assert s'.threads[u].WAsleep?;
    }
  }

  /** A signal of thread `t`, which is at `pc` and goes on to `pc'`. */
  lemma SignalSent(s: State, t: nat, pc: PC, wake: nat, pc': PC) returns (woken: seq<PC>)
    requires t < |s.threads| && !s.threads[t].WAsleep? && !pc.WAsleep? && Wakes(s, wake)
    ensures Signalled(s.threads, wake, woken) && |woken| == |s.threads|
    ensures Signal(At(s, t, pc), t, wake, pc') == At(s.(threads := woken), t, pc')
  {
    SleepersAt(s, t, pc);
    if wake < |s.threads| && s.threads[wake].WAsleep? {
      woken := s.threads[wake := WAwake];
      assert s.threads[t := pc][wake := WAwake][t := pc'] == woken[t := pc'];
    } else {
      woken := s.threads;
      Again(s, t, pc, pc');
    }
  }

  /** The last step of an unlock. */
  lemma Gone(s: State, t: nat, wake: nat, k: nat, s1: State, pc: PC)
    requires t < |s1.threads| && Alone(s, t, wake, k) == At(s1, t, pc) && (pc == RULeave || pc == WULeave)
    ensures Alone(s, t, wake, k + 1) == At(s1.(mutex := None), t, Out)
  {
    More(s, t, wake, k, s1, pc);
    Again(s1.(mutex := None), t, pc, Out);
  }

  /** From the signal to the end of an unlock that signals. */
  lemma LeavesSignalling(s: State, t: nat, wake: nat, k: nat, s1: State, pc: PC, pc': PC) returns (woken: seq<PC>)
    requires t < |s1.threads| && !s1.threads[t].WAsleep? && Wakes(s1, wake)
    requires Alone(s, t, wake, k) == At(s1, t, pc) && !pc.WAsleep? && (pc' == RULeave || pc' == WULeave)
    requires Step(At(s1, t, pc), Go(t, false, wake)) == Signal(At(s1, t, pc), t, wake, pc')
    ensures Signalled(s1.threads, wake, woken)
    ensures |woken| == |s1.threads| && Alone(s, t, wake, k + 2) == At(s1.(mutex := None, threads := woken), t, Out)
  {
    More(s, t, wake, k, s1, pc);
    woken := SignalSent(s1, t, pc, wake, pc');
    Gone(s, t, wake, k + 1, s1.(threads := woken), pc');
  }

  /** From there to the end when there is nobody to wake. */
  lemma LeavesQuietly(s: State, t: nat, wake: nat, k: nat, s1: State, pc: PC, pc': PC)
    requires t < |s1.threads| && Alone(s, t, wake, k) == At(s1, t, pc) && (pc' == RULeave || pc' == WULeave)
    requires Step(At(s1, t, pc), Go(t, false, wake)) == At(At(s1, t, pc), t, pc')
    ensures Alone(s, t, wake, k + 2) == At(s1.(mutex := None), t, Out)
  {
    Goes(s, t, wake, k, s1, pc, s1, pc');
    Gone(s, t, wake, k + 1, s1, pc');
  }

  /** The first three steps of an unlock: to the mutex, and to the counter. */
  lemma Unlocks(s: State, t: nat, wake: nat, pc: PC, pc1: PC, pc2: PC, s3: State, pc3: PC)
    requires t < |s.threads| && s.threads[t] == pc && s.mutex.None? && s3.threads == s.threads
    requires Step(s, Go(t, false, wake)) == At(s, t, pc1)
    requires Step(At(s, t, pc1), Go(t, false, wake)) == Acquire(At(s, t, pc1), t, pc2)
    requires Step(At(s.(mutex := Some(t)), t, pc2), Go(t, false, wake)) == At(At(s3, t, pc2), t, pc3)
    ensures Alone(s, t, wake, 3) == At(s3, t, pc3)
  {
    assert Alone(s, t, wake, 0) == s;
    assert Alone(s, t, wake, 1) == At(s, t, pc1);
    More(s, t, wake, 1, s, pc1);
    Again(s.(mutex := Some(t)), t, pc1, pc2);
    Goes(s, t, wake, 2, s.(mutex := Some(t)), pc2, s3, pc3);
  }

  /** `readerUnlock`: the reader is no longer counted, and a writer is woken if one waits. */
  lemma ReaderUnlock(s: State, t: nat, wake: nat) returns (woken: seq<PC>)
    requires t < |s.threads| && s.threads[t].Reading? && s.mutex.None? && Wakes(s, wake)
    ensures if s.writeWaiters > 0 then Signalled(s.threads, wake, woken) else woken == s.threads
    ensures |woken| == |s.threads| && Alone(s, t, wake, 5) == At(s.(readers := s.readers - 1, threads := woken), t, Out)
  {
    var s3 := s.(mutex := Some(t), readers := s.readers - 1);
    Unlocks(s, t, wake, Reading, RULock, RUncount, s3, RUSignal);
    if s.writeWaiters > 0 {
      woken := LeavesSignalling(s, t, wake, 3, s3, RUSignal, RULeave);
    } else {
      woken := s.threads;
      LeavesQuietly(s, t, wake, 3, s3, RUSignal, RULeave);
    }
  }

  lemma WakesReaders(s: State, t: nat, wake: nat, k: nat, s1: State)
    requires t < |s1.threads| && s1.threads[t] == Writing && Alone(s, t, wake, k) == At(s1, t, WUSignal)
    requires s1.writeWaiters <= 0 && s1.readWaiters > 0
    ensures Alone(s, t, wake, k + 1) == At(s1.(threads := Broadcast(s1.threads)), t, WULeave)
  {
    More(s, t, wake, k, s1, WUSignal);
    assert Broadcast(s1.threads[t := WUSignal])[t := WULeave] == Broadcast(s1.threads)[t := WULeave];
  }

  /** `writerUnlock`: nobody writes any more, and a writer is woken if one waits, or else all readers that wait. */
  lemma WriterUnlock(s: State, t: nat, wake: nat) returns (woken: seq<PC>)
    requires t < |s.threads| && s.threads[t].Writing? && s.mutex.None? && Wakes(s, wake)
    ensures if s.writeWaiters > 0 then Signalled(s.threads, wake, woken)
      else if s.readWaiters > 0 then AllReadersWoken(s.threads, woken) else woken == s.threads
    ensures |woken| == |s.threads| && Alone(s, t, wake, 5) == At(s.(writers := 0, threads := woken), t, Out)
  {
    var s3 := s.(mutex := Some(t), writers := 0);
    Unlocks(s, t, wake, Writing, WULock, WClear, s3, WUSignal);
    if s.writeWaiters > 0 {
      woken := LeavesSignalling(s, t, wake, 3, s3, WUSignal, WULeave);
    } else if s.readWaiters > 0 {
      woken := Broadcast(s.threads);
      WakesReaders(s, t, wake, 3, s3);
      Gone(s, t, wake, 4, s3.(threads := woken), WULeave);
    } else {
      woken := s.threads;
      LeavesQuietly(s, t, wake, 3, s3, WUSignal, WULeave);
    }
  }

  // ---------------------------------------------------------------- calls and returns in a run

  /** Where a thread is between calling for the lock and being rid of it. */
  datatype Phase = Idle | Entering(write: bool) | Inside(write: bool) | Leaving(write: bool)

  function PhaseOf(pc: PC): Phase {
    match pc
    case Out => Idle
    case Reading => Inside(false)
    case Writing => Inside(true)
    case RULock => Leaving(false)
    case RUncount => Leaving(false)
    case RUSignal => Leaving(false)
    case RULeave => Leaving(false)
    case WULock => Leaving(true)
    case WClear => Leaving(true)
    case WUSignal => Leaving(true)
    case WULeave => Leaving(true)
    case _ => Entering(pc.WLock? || pc.WTest? || pc.WCountWait? || pc.WSleep? || pc.WAsleep? || pc.WAwake?
                       || pc.WRetest? || pc.WUncountWait? || pc.WSet? || pc.WLeave?)
  }

  /** A thread stays in its phase, or goes on to the next. */
  predicate Follows(t: nat, ch: Choice, a: Phase, b: Phase) {
    a == b ||
    match a
    case Idle => ch.Go? && ch.t == t && b == Entering(ch.write)
    case Entering(w) => b == Inside(w)
    case Inside(w) => b == Leaving(w)
    case Leaving(w) => b == Idle
  }

  lemma OwnPhase(s: State, ch: Choice)
    requires ch.t < |s.threads| && !s.threads[ch.t].RUSignal? && !s.threads[ch.t].WUSignal?
    ensures Follows(ch.t, ch, PhaseOf(s.threads[ch.t]), PhaseOf(Step(s, ch).threads[ch.t]))
  {
  }

  lemma SignallerPhase(s: State, ch: Choice)
    requires ch.t < |s.threads| && (s.threads[ch.t].RUSignal? || s.threads[ch.t].WUSignal?)
    ensures PhaseOf(Step(s, ch).threads[ch.t]) == PhaseOf(s.threads[ch.t])
  {
  }

  lemma OthersStay(s: State, ch: Choice, t: nat)
    requires t < |s.threads| && t != ch.t
    requires ch.t < |s.threads| ==> !s.threads[ch.t].RUSignal? && !s.threads[ch.t].WUSignal?
    ensures Step(s, ch).threads[t] == s.threads[t]
  {
  }

  lemma OthersWoken(s: State, ch: Choice, t: nat)
    requires t < |s.threads| && ch.t < |s.threads| && t != ch.t
    requires s.threads[ch.t].RUSignal? || s.threads[ch.t].WUSignal?
    ensures PhaseOf(Step(s, ch).threads[t]) == PhaseOf(s.threads[t])
  {
  }

  lemma PhaseStep(s: State, ch: Choice, t: nat)
    requires t < |s.threads|
    ensures Follows(t, ch, PhaseOf(s.threads[t]), PhaseOf(Step(s, ch).threads[t]))
  {
    if ch.t >= |s.threads| {
    } else if t != ch.t && (s.threads[ch.t].RUSignal? || s.threads[ch.t].WUSignal?) {
      OthersWoken(s, ch, t);
    } else if t != ch.t {
      OthersStay(s, ch, t);
    } else if s.threads[t].RUSignal? || s.threads[t].WUSignal? {
      SignallerPhase(s, ch);
    } else {
      OwnPhase(s, ch);
    }
  }

  /** A thread that begins idle goes through its phases in order, one choice at a time. */
  ghost predicate Lived(phases: seq<Phase>, sched: seq<Choice>, t: nat) {
    && |phases| == |sched| + 1 && phases[0] == Idle
    && forall i :: 0 <= i < |sched| ==> Follows(t, sched[i], phases[i], phases[i + 1])
  }

  /** From `a` on, up to but not at `b`, the phase is `x`. */
  ghost predicate Throughout(phases: seq<Phase>, a: nat, b: nat, x: Phase) {
    a <= b <= |phases| && forall i :: a <= i < b ==> phases[i] == x
  }

  /** When the phase at `i` began. */
  lemma {:induction false} Since(phases: seq<Phase>, sched: seq<Choice>, t: nat, i: nat) returns (a: nat)
    requires Lived(phases, sched, t) && i < |phases| && phases[i] != Idle
    ensures 0 < a <= i && Throughout(phases, a, i + 1, phases[i])
    ensures phases[a - 1] != phases[i] && Follows(t, sched[a - 1], phases[a - 1], phases[i])
    decreases i
  {
    assert Follows(t, sched[i - 1], phases[i - 1], phases[i - 1 + 1]);
    a := i;
    if phases[i - 1] == phases[i] {
      a := Since(phases, sched, t, i - 1);
    }
  }

  /** The call that ends at `i`: made at `a`, let in at `b`, leaving since `c`. */
  ghost predicate Served(phases: seq<Phase>, sched: seq<Choice>, t: nat, i: nat, a: nat, b: nat, c: nat) {
    && a + 1 < b < c <= i < |sched| && |phases| == |sched| + 1
    && phases[a] == Idle && sched[a].Go? && sched[a].t == t
    && Throughout(phases, a + 1, b, Entering(sched[a].write))
    && Throughout(phases, b, c, Inside(sched[a].write))
    && Throughout(phases, c, i + 1, Leaving(sched[a].write))
  }

  lemma Ended(phases: seq<Phase>, sched: seq<Choice>, t: nat, i: nat) returns (a: nat, b: nat, c: nat)
    requires Lived(phases, sched, t) && i < |sched| && phases[i] != Idle && phases[i + 1] == Idle
    ensures Served(phases, sched, t, i, a, b, c)
  {
    assert Follows(t, sched[i], phases[i], phases[i + 1]);
    c := Since(phases, sched, t, i);
    b := Since(phases, sched, t, c - 1);
    var a' := Since(phases, sched, t, b - 1);
    a := a' - 1;
  }

  /** What thread `t` is at after each number of steps. */
  ghost function PhasesOf(n: nat, sched: seq<Choice>, t: nat): (phases: seq<Phase>)
    requires t < n
    ensures |phases| == |sched| + 1
    ensures forall i :: 0 <= i <= |sched| ==> phases[i] == PhaseOf(Run(n, sched[..i]).threads[t])
  {
    seq(|sched| + 1, i requires 0 <= i <= |sched| => PhaseOf(Run(n, sched[..i]).threads[t]))
  }

  lemma PhasesLived(n: nat, sched: seq<Choice>, t: nat)
    requires t < n
    ensures Lived(PhasesOf(n, sched, t), sched, t)
  {
    var phases := PhasesOf(n, sched, t);
    assert sched[..0] == [];
    forall i | 0 <= i < |sched| ensures Follows(t, sched[i], phases[i], phases[i + 1]) {
      assert sched[..i + 1][..i] == sched[..i];
      PhaseStep(Run(n, sched[..i]), sched[i], t);
    }
  }

  /** A thread is rid of the lock only by the unlock that matches its call: when it is out again, it has called for
      reading or for writing, was let in, had the lock for that, and then called the unlock. */
  lemma OutByUnlock(n: nat, sched: seq<Choice>, t: nat, i: nat) returns (a: nat, b: nat, c: nat)
    requires t < n && i < |sched| && !Run(n, sched[..i]).threads[t].Out? && Run(n, sched[..i + 1]).threads[t].Out?
    ensures Served(PhasesOf(n, sched, t), sched, t, i, a, b, c)
    ensures Run(n, sched[..b]).threads[t] == if sched[a].write then Writing else Reading
  {
    PhasesLived(n, sched, t);
    var phases := PhasesOf(n, sched, t);
    assert phases[i + 1] == Idle;
    a, b, c := Ended(phases, sched, t, i);
    assert phases[b] == Inside(sched[a].write);
  }
}
