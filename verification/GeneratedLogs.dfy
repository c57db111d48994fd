/**
 The trace generator and the trace checker together: what test.cpp says of the two files that two threads of
 host/gen_multi/host_generator_thread.cpp write.
 */
module GeneratedLogs {
  import opened Options
  import opened ReplayLog
  import opened ReplayChecker
  import opened ReplayExact
  import opened LogFiles
  import G = TraceGenerator

  // ---------------------------------------------------------------- the logs of a run are a history

  predicate KeysFit(sched: seq<G.Choice>) { forall i :: 0 <= i < |sched| ==> Word(sched[i].key) }

  predicate LineFits(line: G.Line, n: nat) { line.t < n && Word(line.e.x) }

  ghost predicate Fitted(s: G.State, n: nat) {
    && |s.threads| == n && (forall k :: 0 <= k < |s.order| ==> LineFits(s.order[k], n))
    && (forall t :: 0 <= t < n && s.threads[t].Do? ==> Word(s.threads[t].key))
  }

  lemma FittedStep(p: G.Params, s: G.State, ch: G.Choice, n: nat)
    requires Fitted(s, n) && Word(ch.key)
    ensures Fitted(G.Step(p, s, ch), n)
  {
    var s' := G.Step(p, s, ch);
    if ch.t < n && ch.t < |s.logs| {
      G.OneMoves(p, s, ch);
    }
  }

  lemma {:induction false} RunFitted(p: G.Params, n: nat, start: set<int>, sched: seq<G.Choice>)
    requires KeysFit(sched)
    ensures Fitted(G.Run(p, n, start, sched), n)
  {
    if sched != [] {
      RunFitted(p, n, start, sched[..|sched| - 1]);
      FittedStep(p, G.Run(p, n, start, sched[..|sched| - 1]), sched[|sched| - 1], n);
    }
  }

  /** The log of a thread grows along the order. */
  lemma {:induction false} LogPrefix(order: seq<G.Line>, t: nat, k: nat)
    requires k <= |order|
    ensures G.LogOf(order[..k], t) <= G.LogOf(order, t)
    decreases |order|
  {
    if k == |order| {
      assert order[..k] == order;
    } else {
      var m := |order| - 1;
      LogPrefix(order[..m], t, k);
      assert order[..m][..k] == order[..k];
    }
  }

  lemma LogNext(order: seq<G.Line>, t: nat, k: nat)
    requires k < |order|
    ensures var log := G.LogOf(order[..k], t);
      G.LogOf(order[..k + 1], t) == if order[k].t == t then log + [order[k].e] else log
  {
    assert order[..k + 1][..k] == order[..k];
  }

  function Turns(order: seq<G.Line>): seq<bool> { seq(|order|, k requires 0 <= k < |order| => order[k].t == 0) }

  ghost predicate OfTwo(order: seq<G.Line>) { forall k :: 0 <= k < |order| ==> order[k].t < 2 }

  lemma NextSet(start: set<int>, order: seq<G.Line>, k: nat)
    requires k < |order|
    ensures G.SetAfter(start, order[..k + 1]) == After(G.SetAfter(start, order[..k]), order[k].e.op, order[k].e.x)
  {
    assert order[..k + 1][..k] == order[..k];
  }

  /** The place of a history after the first `k` lines. */
  function Place(order: seq<G.Line>, k: nat): Progress
    requires k <= |order|
  {
    Progress(|G.LogOf(order[..k], 0)|, |G.LogOf(order[..k], 1)|, G.SetAfter({}, order[..k]))
  }

  /** Where line `k` stands in the log of its thread. */
  lemma LogAt(order: seq<G.Line>, k: nat)
    requires k < |order|
    ensures var t := order[k].t; var i, log := |G.LogOf(order[..k], t)|, G.LogOf(order, t);
      i < |log| && log[i] == order[k].e && |G.LogOf(order[..k + 1], t)| == i + 1
  {
    LogNext(order, order[k].t, k);
    LogPrefix(order, order[k].t, k + 1);
  }

  lemma OtherLog(order: seq<G.Line>, k: nat, t: nat)
    requires k < |order| && order[k].t != t
    ensures G.LogOf(order[..k + 1], t) == G.LogOf(order[..k], t)
  {
    LogNext(order, t, k);
  }

  lemma FirstNext(order: seq<G.Line>, k: nat)
    requires k < |order| && order[k].t == 0 && G.AllRight({}, order)
    ensures MergeFirst(G.LogOf(order, 0), Place(order, k)) == Some(Place(order, k + 1))
  {
    NextSet({}, order, k);
    LogAt(order, k);
    OtherLog(order, k, 1);
    assert order[k].e.yes == Yes(G.SetAfter({}, order[..k]), order[k].e.op, order[k].e.x);
  }

  lemma SecondNext(order: seq<G.Line>, k: nat)
    requires k < |order| && order[k].t == 1 && G.AllRight({}, order)
    ensures var es2, p := G.LogOf(order, 1), Place(order, k);
      p.j < |es2| && Fitting(p.s, es2[p.j]) && MergeSecond(es2, p) == Some(Place(order, k + 1))
  {
    NextSet({}, order, k);
    LogAt(order, k);
    OtherLog(order, k, 0);
    assert order[k].e.yes == Yes(G.SetAfter({}, order[..k]), order[k].e.op, order[k].e.x);
    NoChange(G.SetAfter({}, order[..k]), order[k].e);
  }

  /** An operation that is answered no leaves the set alone. */
  lemma NoChange(s: set<int>, e: Entry)
    ensures !Yes(s, e.op, e.x) ==> After(s, e.op, e.x) == s
  {
  }

  lemma HistoryStep(es1: seq<Entry>, es2: seq<Entry>, turns: seq<bool>, k: nat, p: Progress, p': Progress)
    requires k < |turns| && History(es1, es2, turns[..k]) == Some(p)
    requires if turns[k] then MergeFirst(es1, p) == Some(p')
      else p.j < |es2| && Fitting(p.s, es2[p.j]) && MergeSecond(es2, p) == Some(p')
    ensures History(es1, es2, turns[..k + 1]) == Some(p')
  {
    assert turns[..k + 1][..k] == turns[..k] && turns[..k + 1][k] == turns[k];
  }

  lemma {:induction false} OrderHistory(order: seq<G.Line>, k: nat)
    requires k <= |order| && OfTwo(order) && G.AllRight({}, order)
    ensures History(G.LogOf(order, 0), G.LogOf(order, 1), Turns(order)[..k]) == Some(Place(order, k))
  {
    var turns := Turns(order);
    if k == 0 {
      assert turns[..0] == [] && order[..0] == [];
    } else {
      OrderHistory(order, k - 1);
      if order[k - 1].t == 0 { FirstNext(order, k - 1); } else { SecondNext(order, k - 1); }
      HistoryStep(G.LogOf(order, 0), G.LogOf(order, 1), turns, k - 1, Place(order, k - 1), Place(order, k));
    }
  }

  /** Two threads that start on the empty list write logs of one run. */
  lemma RunHappened(p: G.Params, sched: seq<G.Choice>)
    requires KeysFit(sched)
    ensures var logs := G.Run(p, 2, {}, sched).logs;
      Fits32(logs[0]) && Fits32(logs[1]) && Happened(logs[0], logs[1])
  {
    var s := G.Run(p, 2, {}, sched);
    G.AnswersRight(p, 2, {}, sched);
    RunFitted(p, 2, {}, sched);
    OrderHistory(s.order, |s.order|);
    assert Turns(s.order)[..|s.order|] == Turns(s.order) && s.order[..|s.order|] == s.order;
    LogFits(s.order, 0);
    LogFits(s.order, 1);
  }

  lemma {:induction false} LogFits(order: seq<G.Line>, t: nat)
    requires forall k :: 0 <= k < |order| ==> LineFits(order[k], 2)
    ensures Fits32(G.LogOf(order, t))
  {
    if order != [] {
      LogFits(order[..|order| - 1], t);
      assert LineFits(order[|order| - 1], 2);
    }
  }

  // ---------------------------------------------------------------- every such history can come about

  /** Some schedule with keys that fit leads two threads on the empty list to `s`. */
  ghost predicate Reached(p: G.Params, s: G.State) {
    exists sched :: KeysFit(sched) && G.Run(p, 2, {}, sched) == s
  }

  lemma Go(p: G.Params, s: G.State, ch: G.Choice)
    requires Reached(p, s) && Word(ch.key)
    ensures Reached(p, G.Step(p, s, ch))
  {
    var sched :| KeysFit(sched) && G.Run(p, 2, {}, sched) == s;
    var more := sched + [ch];
    assert more[..|more| - 1] == sched;
    assert KeysFit(more) && G.Run(p, 2, {}, more) == G.Step(p, s, ch);
  }

  /** One step of thread `t` from `pc` to `pc'`, which makes `s'` of the rest. */
  lemma Turn(p: G.Params, s: G.State, t: nat, pc: G.PC, s': G.State, pc': G.PC, ch: G.Choice)
    requires t < |s.threads| && s'.threads == s.threads && Reached(p, G.At(s, t, pc)) && ch.t == t && Word(ch.key)
    requires G.Step(p, G.At(s, t, pc), ch) == G.At(G.At(s', t, pc), t, pc')
    ensures Reached(p, G.At(s', t, pc'))
  {
    Go(p, G.At(s, t, pc), ch);
    assert s.threads[t := pc][t := pc'] == s.threads[t := pc'];
  }

  /** The roll that makes a thread try an operation, when one in ten is a `contains`. */
  function Roll(op: Op): nat {
    match op
    case Contains => 0
    case Add => 10
    case Remove => 99
  }

  /** Nobody is in the section, and the lines so far are `logs`. */
  ghost predicate Resting(p: G.Params, s: G.State, logs: seq<seq<Entry>>, list: set<int>, count: nat) {
    && Reached(p, s) && s.threads == [G.Guard, G.Guard] && !s.lock && s.logs == logs && |logs| == 2
    && s.list == list && s.size == |list| <= count && s.opCount == count
  }

  /** A line that the generator can be made to write: its answer is right, and it is yes. */
  predicate Writable(list: set<int>, e: Entry) { e.yes && Yes(list, e.op, e.x) && Word(e.x) }

  ghost function Written(s: G.State, t: nat, e: Entry): G.State
    requires t < |s.logs|
  {
    s.(list := After(s.list, e.op, e.x), logs := s.logs[t := s.logs[t] + [e]], order := s.order + [G.Line(t, e)])
  }

  lemma Enters(p: G.Params, s: G.State, t: nat, ch: G.Choice)
    requires Reached(p, s) && t < |s.threads| && t < |s.logs| && s.threads[t] == G.Guard && !s.lock
    requires s.opCount < p.ttop && ch.t == t && Word(ch.key)
    ensures Reached(p, G.At(s.(lock := true, opCount := s.opCount + 1), t, G.Draw))
  {
    assert s.threads[t := G.Guard] == s.threads;
    var held := s.(lock := true);
    Turn(p, s, t, G.Guard, s, G.TryLock, ch);
    Turn(p, s, t, G.TryLock, held, G.CountOp, ch);
    Turn(p, held, t, G.CountOp, held.(opCount := s.opCount + 1), G.Draw, ch);
  }

  lemma Draws(p: G.Params, s: G.State, t: nat, e: Entry)
    requires t < |s.threads| && t < |s.logs| && Reached(p, G.At(s, t, G.Draw)) && Writable(s.list, e)
    requires p.cp == 10 && s.size == |s.list| < p.maxsz
    ensures Reached(p, G.At(s, t, G.Do(e.op, e.x)))
  {
    assert e.op.Remove? ==> |s.list| > 0;
    assert G.Pick(p, s.size, Roll(e.op)) == e.op;
    Turn(p, s, t, G.Draw, s, G.Do(e.op, e.x), G.Choice(t, e.x, Roll(e.op)));
  }

  function SizeAfter(s: G.State, e: Entry): int {
    s.size + if e.op.Add? then 1 else if e.op.Remove? then -1 else 0
  }

  lemma Writes(p: G.Params, s: G.State, t: nat, e: Entry)
    requires t < |s.threads| && t < |s.logs| && Reached(p, G.At(s, t, G.Do(e.op, e.x))) && Writable(s.list, e)
    ensures Reached(p, G.At(Written(s, t, e).(size := SizeAfter(s, e)), t, G.Release))
  {
    var s', ch := Written(s, t, e), G.Choice(t, e.x, 0);
    var done := s'.(size := SizeAfter(s, e));
    if e.op.Add? {
      Turn(p, s, t, G.Do(e.op, e.x), s', G.SizeUp, ch);
      Turn(p, s', t, G.SizeUp, done, G.Release, ch);
    } else if e.op.Remove? {
      Turn(p, s, t, G.Do(e.op, e.x), s', G.SizeDown, ch);
      Turn(p, s', t, G.SizeDown, done, G.Release, ch);
    } else {
      Turn(p, s, t, G.Do(e.op, e.x), done, G.Release, ch);
    }
  }

  lemma SizeIs(list: set<int>, e: Entry)
    requires e.yes && Yes(list, e.op, e.x)
    ensures |After(list, e.op, e.x)| == |list| + if e.op.Add? then 1 else if e.op.Remove? then -1 else 0
  {
  }

  /** Thread `t` writes the line `e`. */
  lemma WritesLine(p: G.Params, s: G.State, logs: seq<seq<Entry>>, list: set<int>, count: nat, t: nat, e: Entry)
    returns (s': G.State)
    requires Resting(p, s, logs, list, count) && t < 2 && Writable(list, e) && p.cp == 10 && count < p.ttop
    requires count < p.maxsz
    ensures Resting(p, s', logs[t := logs[t] + [e]], After(list, e.op, e.x), count + 1)
  {
    var held := s.(lock := true, opCount := s.opCount + 1);
    var done := Written(held, t, e).(size := SizeAfter(held, e));
    Enters(p, s, t, G.Choice(t, e.x, 0));
    Draws(p, held, t, e);
    Writes(p, held, t, e);
    Turn(p, done, t, G.Release, done.(lock := false), G.Guard, G.Choice(t, e.x, 0));
    s' := G.At(done.(lock := false), t, G.Guard);
    SizeIs(list, e);
    assert s'.threads == [G.Guard, G.Guard];
  }

  /** The logs as far as a history has come. */
  function LogsAt(es1: seq<Entry>, es2: seq<Entry>, q: Progress): seq<seq<Entry>>
    requires q.i <= |es1| && q.j <= |es2|
  {
    [es1[..q.i], es2[..q.j]]
  }

  ghost predicate Plays(es1: seq<Entry>, es2: seq<Entry>) { AllYes(es1) && AllYes(es2) && Fits32(es1) && Fits32(es2) }

  lemma {:induction false} HistoryWritten(p: G.Params, es1: seq<Entry>, es2: seq<Entry>, order: seq<bool>)
    returns (s: G.State)
    requires Plays(es1, es2) && History(es1, es2, order).Some? && p.cp == 10 && |order| <= p.ttop && |order| <= p.maxsz
    ensures var q := History(es1, es2, order).value;
      q.i <= |es1| && q.j <= |es2| && Resting(p, s, LogsAt(es1, es2, q), q.s, |order|)
  {
    if order == [] {
      s := G.Init(2, {});
      assert G.Run(p, 2, {}, []) == s && KeysFit([]);
      assert s.threads == [G.Guard, G.Guard] && s.logs == [[], []];
    } else {
      var m := |order| - 1;
      var q := History(es1, es2, order[..m]).value;
      s := HistoryWritten(p, es1, es2, order[..m]);
      if order[m] {
        s := FirstWrites(p, es1, es2, q, s, m);
      } else {
        s := SecondWrites(p, es1, es2, q, s, m);
      }
    }
  }

  lemma FirstWrites(p: G.Params, es1: seq<Entry>, es2: seq<Entry>, q: Progress, s: G.State, m: nat)
    returns (s': G.State)
    requires Plays(es1, es2) && p.cp == 10 && m < p.ttop && m < p.maxsz && q.i < |es1| && q.j <= |es2|
    requires Resting(p, s, LogsAt(es1, es2, q), q.s, m) && Yes(q.s, es1[q.i].op, es1[q.i].x)
    ensures Resting(p, s', [es1[..q.i + 1], es2[..q.j]], After(q.s, es1[q.i].op, es1[q.i].x), m + 1)
  {
    var logs, e := LogsAt(es1, es2, q), es1[q.i];
    s' := WritesLine(p, s, logs, q.s, m, 0, e);
    assert es1[..q.i + 1] == es1[..q.i] + [e];
    assert logs[0 := logs[0] + [e]] == [es1[..q.i + 1], es2[..q.j]];
  }

  lemma SecondWrites(p: G.Params, es1: seq<Entry>, es2: seq<Entry>, q: Progress, s: G.State, m: nat)
    returns (s': G.State)
    requires Plays(es1, es2) && p.cp == 10 && m < p.ttop && m < p.maxsz && q.i <= |es1| && q.j < |es2|
    requires Resting(p, s, LogsAt(es1, es2, q), q.s, m) && Yes(q.s, es2[q.j].op, es2[q.j].x)
    ensures Resting(p, s', [es1[..q.i], es2[..q.j + 1]], After(q.s, es2[q.j].op, es2[q.j].x), m + 1)
  {
    var logs, e := LogsAt(es1, es2, q), es2[q.j];
    s' := WritesLine(p, s, logs, q.s, m, 1, e);
    assert es2[..q.j + 1] == es2[..q.j] + [e];
    assert logs[1 := logs[1] + [e]] == [es1[..q.i], es2[..q.j + 1]];
  }

  /** Two threads can be made to write any two logs of one run with all answers yes. */
  lemma Produced(es1: seq<Entry>, es2: seq<Entry>) returns (p: G.Params, sched: seq<G.Choice>)
    requires Plays(es1, es2) && Happened(es1, es2)
    ensures KeysFit(sched) && G.Run(p, 2, {}, sched).logs == [es1, es2]
  {
    var order, last :| History(es1, es2, order) == Some(Progress(|es1|, |es2|, last));
    p := G.Params(10, |order|, |order|);
    var s := HistoryWritten(p, es1, es2, order);
    sched :| KeysFit(sched) && G.Run(p, 2, {}, sched) == s;
    assert es1[..|es1|] == es1 && es2[..|es2|] == es2;
  }

  // ---------------------------------------------------------------- generator and checker

  /** What the checker says of the two files that a run of the generator leaves. */
  function Verdict(p: G.Params, sched: seq<G.Choice>): ReplayChecker.Verdict {
    var logs := G.Run(p, 2, {}, sched).logs;
    Judge(Words(FileOf(logs[0])), Words(FileOf(logs[1])), NOTHING)
  }

  /** A run whose two logs change just the keys in `a` and in `b`. */
  ghost predicate Changing(p: G.Params, sched: seq<G.Choice>, a: set<int>, b: set<int>) {
    var logs := G.Run(p, 2, {}, sched).logs;
    KeysFit(sched) && Changed(logs[0]) == a && Changed(logs[1]) == b
  }

  /** The checker accepts the files of every run of the generator that changes just the keys in `a` and in `b`, whatever
      the parameters and the schedule, if and only if the two sets are disjoint or the second has at most one key. */
  lemma ToolsAgree(a: set<int>, b: set<int>)
    requires (forall x :: x in a ==> Word(x)) && (forall x :: x in b ==> Word(x))
    ensures (forall p, sched :: Changing(p, sched, a, b) ==> Verdict(p, sched) == Consistent)
      <==> a * b == {} || |b| <= 1
  {
    if a * b == {} || |b| <= 1 {
      forall p, sched | Changing(p, sched, a, b) ensures Verdict(p, sched) == Consistent {
        Accepted(p, sched, a, b);
      }
    } else {
      var es1, es2 := Rejects(a, b);
      var p, sched := Produced(es1, es2);
      FileWords(es1);
      FileWords(es2);
      assert Changing(p, sched, a, b) && Verdict(p, sched) == Inconsistent;
    }
  }

  lemma Accepted(p: G.Params, sched: seq<G.Choice>, a: set<int>, b: set<int>)
    requires Changing(p, sched, a, b) && (a * b == {} || |b| <= 1)
    ensures Verdict(p, sched) == Consistent
  {
    var logs := G.Run(p, 2, {}, sched).logs;
    RunHappened(p, sched);
    FileWords(logs[0]);
    FileWords(logs[1]);
    Accepts(a, b, logs[0], logs[1]);
    HappenedExplained(logs[0], logs[1]);
  }
}
