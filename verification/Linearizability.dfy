/**
 Linearizability, stated as membership in the traces of the canonical atomic object.

 The atomic object holds one sequential state `obj` and one status per thread. A thread's
 operation passes through three actions: `Call` (invocation), `Lin` (the operation takes
 effect, indivisibly and between its call and its return) and `Ret` (the result computed at
 `Lin` is handed back). A concurrent history, a sequence of `Call`s and `Ret`s, is linearizable
 when some placement of `Lin` actions turns it into a run of that object.
 */
module Linearizability {
  import opened Options

  datatype Action<+O, +R> = Call(t: nat, op: O) | Lin(t: nat) | Ret(t: nat, res: R)

  datatype Status<+O, +R> = Idle | Pending(op: O) | Done(op: O, res: R)

  datatype Atomic<+S, +O, +R> = Atomic(obj: S, status: seq<Status<O, R>>)

  /** One action of the atomic object; `None` when the object cannot take it. */
  function Act<S, O, R(==)>(f: (S, O) -> (S, R), a: Atomic<S, O, R>, x: Action<O, R>): Option<Atomic<S, O, R>>
  {
    if x.t >= |a.status| then None else
    match (x, a.status[x.t])
    case (Call(t, op), Idle) => Some(a.(status := a.status[t := Pending(op)]))
    case (Lin(t), Pending(op)) =>
      var (obj, res) := f(a.obj, op);
      Some(Atomic(obj, a.status[t := Done(op, res)]))
    case (Ret(t, r), Done(_, res)) => if r == res then Some(a.(status := a.status[t := Idle])) else None
    case _ => None
  }

  /** A whole run of the atomic object from `a`. */
  function Exec<S, O, R(==)>(f: (S, O) -> (S, R), a: Atomic<S, O, R>, xs: seq<Action<O, R>>): Option<Atomic<S, O, R>>
  {
    if xs == [] then Some(a) else
    match Exec(f, a, xs[..|xs| - 1])
    case None => None
    case Some(b) => Act(f, b, xs[|xs| - 1])
  }

  /** What an outside observer sees of a run: the calls and the returns. */
  function Visible<O, R>(xs: seq<Action<O, R>>): seq<Action<O, R>>
  {
    if xs == [] then [] else
    var rest := Visible(xs[..|xs| - 1]);
    if xs[|xs| - 1].Lin? then rest else rest + [xs[|xs| - 1]]
  }

  function NewObject<S, O, R>(obj: S, threads: nat): Atomic<S, O, R> {
    Atomic(obj, seq(threads, i => Idle))
  }

  /** The history is one that `threads` threads could observe of the atomic object. */
  ghost predicate Linearizable<S, O(!new), R(!new)>(f: (S, O) -> (S, R), obj: S, threads: nat,
                                    history: seq<Action<O, R>>)
  {
    exists xs :: Exec(f, NewObject(obj, threads), xs).Some? && Visible(xs) == history
  }

  lemma {:induction false} VisibleConcat<O, R>(xs: seq<Action<O, R>>, ys: seq<Action<O, R>>)
    ensures Visible(xs + ys) == Visible(xs) + Visible(ys)
  {
    if ys == [] {
      assert xs + ys == xs;
    } else {
      var zs := xs + ys;
      assert zs[..|zs| - 1] == xs + ys[..|ys| - 1];
      VisibleConcat(xs, ys[..|ys| - 1]);
    }
  }

  lemma {:induction false} ExecConcat<S, O, R>(f: (S, O) -> (S, R), a: Atomic<S, O, R>, xs: seq<Action<O, R>>,
                                               ys: seq<Action<O, R>>)
    requires Exec(f, a, xs).Some?
    ensures Exec(f, a, xs + ys) == Exec(f, Exec(f, a, xs).value, ys)
    ensures Visible(xs + ys) == Visible(xs) + Visible(ys)
  {
    VisibleConcat(xs, ys);
    if ys == [] {
      assert xs + ys == xs;
    } else {
      var zs := xs + ys;
      assert zs[..|zs| - 1] == xs + ys[..|ys| - 1];
      ExecConcat(f, a, xs, ys[..|ys| - 1]);
    }
  }

  lemma ExecOne<S, O, R>(f: (S, O) -> (S, R), a: Atomic<S, O, R>, x: Action<O, R>)
    ensures Exec(f, a, [x]) == Act(f, a, x)
    ensures Visible([x]) == if x.Lin? then [] else [x]
  {
    assert [x][..0] == [];
    assert Exec(f, a, [x][..0]) == Some(a);
    assert Visible([x][..0]) == [];
  }

  /**
   Thread `t`, still pending at the end of `xs`, could have taken effect with answer `r` after
   the first `k` actions without changing the object, and has not acted since.
   */
  ghost predicate CouldAnswerAt<S, O, R>(f: (S, O) -> (S, R), a: Atomic<S, O, R>, xs: seq<Action<O, R>>, t: nat, r: R,
                                         k: nat)
  {
    && k <= |xs|
    && Exec(f, a, xs[..k]).Some?
    && var b := Exec(f, a, xs[..k]).value;
    && t < |b.status| && b.status[t].Pending?
    && f(b.obj, b.status[t].op) == (b.obj, r)
    && forall i :: k <= i < |xs| ==> xs[i].t != t
  }

  /** Actions of other threads keep the possibility. */
  lemma CouldAnswerExtends<S, O, R>(f: (S, O) -> (S, R), a: Atomic<S, O, R>, xs: seq<Action<O, R>>,
                                    ys: seq<Action<O, R>>, t: nat, r: R, k: nat)
    requires CouldAnswerAt(f, a, xs, t, r, k)
    requires forall i :: 0 <= i < |ys| ==> ys[i].t != t
    ensures CouldAnswerAt(f, a, xs + ys, t, r, k)
  {
    assert (xs + ys)[..k] == xs[..k];
  }

  /**
   An answer that leaves the object alone may be placed in the past: inserting `Lin(t)` at `k`
   gives a run with the same calls and returns that ends in the same state, except that `t`
   has now taken effect with answer `r`.
   */
  lemma {:induction false} AnswerInThePast<S, O, R>(f: (S, O) -> (S, R), a: Atomic<S, O, R>, xs: seq<Action<O, R>>,
                                                    t: nat, r: R, k: nat)
    requires CouldAnswerAt(f, a, xs, t, r, k)
    requires Exec(f, a, xs).Some?
    ensures var b := Exec(f, a, xs).value;
      && t < |b.status| && b.status[t].Pending?
      && var ys := xs[..k] + [Lin(t)] + xs[k..];
      && Exec(f, a, ys) == Some(b.(status := b.status[t := Done(b.status[t].op, r)]))
      && Visible(ys) == Visible(xs)
    decreases |xs|
  {
    var ys := xs[..k] + [Lin(t)] + xs[k..];
    var n := |xs| - 1;
    if k == |xs| {
      assert xs[..k] == xs && ys == xs + [Lin(t)] && ys[..|ys| - 1] == xs;
    } else {
      assert xs[..n][..k] == xs[..k];
      AnswerInThePast(f, a, xs[..n], t, r, k);
      assert ys[..|ys| - 1] == xs[..k] + [Lin(t)] + xs[..n][k..] && ys[|ys| - 1] == xs[n];
      ActCommutes(f, Exec(f, a, xs[..n]).value, xs[n], t, r);
    }
  }

  /** Placing `t`'s answer in the past does not take away what another thread could answer. */
  lemma OthersCouldStillAnswer<S, O, R>(f: (S, O) -> (S, R), a: Atomic<S, O, R>, xs: seq<Action<O, R>>,
                                        t: nat, r: R, k: nat, u: nat, q: R, m: nat) returns (m': nat)
    requires CouldAnswerAt(f, a, xs, t, r, k) && CouldAnswerAt(f, a, xs, u, q, m) && u != t
    ensures CouldAnswerAt(f, a, xs[..k] + [Lin(t)] + xs[k..], u, q, m')
  {
    var ys := xs[..k] + [Lin(t)] + xs[k..];
    if m <= k {
      m' := m;
      assert ys[..m] == xs[..m];
    } else {
      m' := m + 1;
      var zs := xs[..m];
      assert zs[..k] == xs[..k];
      AnswerInThePast(f, a, zs, t, r, k);
      assert ys[..m'] == zs[..k] + [Lin(t)] + zs[k..];
    }
  }

  /** Another thread's action neither sees nor disturbs `t`'s status. */
  lemma ActCommutes<S, O, R>(f: (S, O) -> (S, R), b: Atomic<S, O, R>, x: Action<O, R>, t: nat, r: R)
    requires x.t != t && t < |b.status| && b.status[t].Pending?
    requires Act(f, b, x).Some?
    ensures var c := Act(f, b, x).value;
      && |c.status| == |b.status| && c.status[t] == b.status[t]
      && Act(f, b.(status := b.status[t := Done(b.status[t].op, r)]), x)
         == Some(c.(status := c.status[t := Done(b.status[t].op, r)]))
  {
    var c := Act(f, b, x).value;
    var d := Act(f, b.(status := b.status[t := Done(b.status[t].op, r)]), x);
    assert d.Some?;
    assert d.value.status == c.status[t := Done(b.status[t].op, r)];
  }

  // ---------------------------------------------------------------- histories without overlap

  /** One operation by one thread, with its answer. */
  datatype Turn<+O, +R> = Turn(t: nat, op: O, res: R)

  /** Every call is followed at once by its return. */
  function OneByOne<O, R>(turns: seq<Turn<O, R>>): seq<Action<O, R>> {
    if turns == [] then [] else
    var last := turns[|turns| - 1];
    OneByOne(turns[..|turns| - 1]) + [Call(last.t, last.op), Ret(last.t, last.res)]
  }

  /** The sequential object after the turns. */
  function AfterTurns<S, O, R>(f: (S, O) -> (S, R), obj: S, turns: seq<Turn<O, R>>): S {
    if turns == [] then obj else f(AfterTurns(f, obj, turns[..|turns| - 1]), turns[|turns| - 1].op).0
  }

  ghost predicate AnswersRight<S, O, R>(f: (S, O) -> (S, R), obj: S, turns: seq<Turn<O, R>>) {
    if turns == [] then true else
    var before, last := turns[..|turns| - 1], turns[|turns| - 1];
    AnswersRight(f, obj, before) && last.res == f(AfterTurns(f, obj, before), last.op).1
  }

  lemma {:induction false} OneByOneAt<O, R>(turns: seq<Turn<O, R>>, k: nat)
    requires k < |turns|
    ensures |OneByOne(turns)| == 2 * |turns|
    ensures OneByOne(turns)[2 * k] == Call(turns[k].t, turns[k].op)
    ensures OneByOne(turns)[2 * k + 1] == Ret(turns[k].t, turns[k].res)
    decreases |turns|
  {
    var n := |turns| - 1;
    if k < n {
      OneByOneAt(turns[..n], k);
    } else if n > 0 {
      OneByOneAt(turns[..n], 0);
    }
  }

  ghost predicate OthersIdle<O, R>(status: seq<Status<O, R>>, t: nat) {
    forall u :: 0 <= u < |status| && u != t ==> status[u] == Idle
  }

  /** Where the atomic object is after part of such a history: between turns, or inside turn `k`. */
  ghost predicate InTurn<S, O, R>(f: (S, O) -> (S, R), obj: S, turns: seq<Turn<O, R>>, a: Atomic<S, O, R>, k: nat,
                                  inside: bool) {
    if !inside then
      && k <= |turns| && a.obj == AfterTurns(f, obj, turns[..k]) && AnswersRight(f, obj, turns[..k])
         && OthersIdle(a.status, |a.status|)
    else
      && k < |turns| && AnswersRight(f, obj, turns[..k]) && turns[k].t < |a.status| && OthersIdle(a.status, turns[k].t)
      && var before := AfterTurns(f, obj, turns[..k]);
      && (|| (a.status[turns[k].t] == Pending(turns[k].op) && a.obj == before)
          || (a.status[turns[k].t] == Done(turns[k].op, f(before, turns[k].op).1) && a.obj == f(before, turns[k].op).0))
  }

  lemma TurnCall<S, O, R>(f: (S, O) -> (S, R), obj: S, turns: seq<Turn<O, R>>, a: Atomic<S, O, R>, k: nat)
    requires InTurn(f, obj, turns, a, k, false) && k < |turns| && Act(f, a, Call(turns[k].t, turns[k].op)).Some?
    ensures InTurn(f, obj, turns, Act(f, a, Call(turns[k].t, turns[k].op)).value, k, true)
  {
  }

  lemma TurnLin<S, O, R>(f: (S, O) -> (S, R), obj: S, turns: seq<Turn<O, R>>, a: Atomic<S, O, R>, k: nat, inside: bool,
                         t: nat)
    requires InTurn(f, obj, turns, a, k, inside) && Act(f, a, Lin(t)).Some?
    ensures InTurn(f, obj, turns, Act(f, a, Lin(t)).value, k, inside)
  {
    assert t < |a.status| && a.status[t].Pending?;
    assert inside && t == turns[k].t;
  }

  lemma TurnRet<S, O, R>(f: (S, O) -> (S, R), obj: S, turns: seq<Turn<O, R>>, a: Atomic<S, O, R>, k: nat)
    requires InTurn(f, obj, turns, a, k, true) && Act(f, a, Ret(turns[k].t, turns[k].res)).Some?
    ensures InTurn(f, obj, turns, Act(f, a, Ret(turns[k].t, turns[k].res)).value, k + 1, false)
  {
    assert turns[..k + 1][..k] == turns[..k] && turns[..k + 1][k] == turns[k];
    assert a.status[turns[k].t].Done?;
  }

  lemma {:induction false} TurnsFollowed<S, O, R>(f: (S, O) -> (S, R), obj: S, threads: nat, turns: seq<Turn<O, R>>,
                                                  xs: seq<Action<O, R>>)
    requires Exec(f, NewObject(obj, threads), xs).Some? && Visible(xs) <= OneByOne(turns)
    ensures InTurn(f, obj, turns, Exec(f, NewObject(obj, threads), xs).value, |Visible(xs)| / 2, |Visible(xs)| % 2 == 1)
  {
    if xs == [] {
      assert turns[..0] == [];
    } else {
      var n := |xs| - 1;
      var m, a := |Visible(xs[..n])|, Exec(f, NewObject(obj, threads), xs[..n]);
      TurnsFollowed(f, obj, threads, turns, xs[..n]);
      if xs[n].Lin? {
        TurnLin(f, obj, turns, a.value, m / 2, m % 2 == 1, xs[n].t);
      } else {
        NextTurn(turns, m);
        assert xs[n] == OneByOne(turns)[m];
        if m % 2 == 0 {
          TurnCall(f, obj, turns, a.value, m / 2);
        } else {
          TurnRet(f, obj, turns, a.value, m / 2);
        }
      }
    }
  }

  lemma NextTurn<O, R>(turns: seq<Turn<O, R>>, m: nat)
    requires m < |OneByOne(turns)|
    ensures m / 2 < |turns|
    ensures OneByOne(turns)[m] == var turn := turns[m / 2]; if m % 2 == 0 then Call(turn.t, turn.op)
      else Ret(turn.t, turn.res)
  {
    OneByOneAt(turns, 0);
    OneByOneAt(turns, m / 2);
  }

  /** A linearizable history without overlap has the answers of the sequential object. */
  lemma OneByOneAnswers<S, O(!new), R(!new)>(f: (S, O) -> (S, R), obj: S, threads: nat, turns: seq<Turn<O, R>>)
    requires Linearizable(f, obj, threads, OneByOne(turns))
    ensures AnswersRight(f, obj, turns)
  {
    var xs :| Exec(f, NewObject(obj, threads), xs).Some? && Visible(xs) == OneByOne(turns);
    TurnsFollowed(f, obj, threads, turns, xs);
    if turns != [] {
      OneByOneAt(turns, 0);
      assert turns[..|turns|] == turns;
    }
  }
}
