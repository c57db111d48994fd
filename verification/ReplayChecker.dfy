/**
 The trace checker of test.cpp: it replays the log of one thread on a sorted list, and where an answer does
 not fit it plays entries of a second thread's log until the one that would make it fit.

 The second thread's answers are not checked; its additions and removals count when answered yes.
 */
module ReplayChecker {
  import opened Options
  import opened ReplayLog
  import SortedList

  // ---------------------------------------------------------------- what a verdict means

  /** The answer of a set. */
  predicate Yes(s: set<int>, op: Op, x: int) { if op.Add? then x !in s else x in s }

  function After(s: set<int>, op: Op, x: int): set<int> {
    match op
    case Add => s + {x}
    case Contains => s
    case Remove => s - {x}
  }

  /** A logged answer fits the set; anything but a yes or a no fits every set. */
  predicate Right(s: set<int>, op: Op, x: int, answer: char) {
    (answer == 'y' ==> Yes(s, op, x)) && (answer == 'n' ==> !Yes(s, op, x))
  }

  /** How far an order has come: entries of the first and of the second log, and the set after them. */
  datatype Progress = Progress(i: nat, j: nat, s: set<int>)

  /** Play the entries in the given order, true standing for the first thread, from the empty set. `None` when a log
      is too short, or when an answer of the first thread is wrong at its place in the order. */
  function Replay(t1: seq<string>, t2: seq<string>, order: seq<bool>): Option<Progress> {
    if order == [] then Some(Progress(0, 0, {})) else
    match Replay(t1, t2, order[..|order| - 1])
    case None => None
    case Some(p) => if order[|order| - 1] then PlayFirst(t1, p) else PlaySecond(t2, p)
  }

  function PlayFirst(t1: seq<string>, p: Progress): Option<Progress> {
    match ReadAt(t1, 2 * p.i, false)
    case Got(op, x, answer) =>
      if Right(p.s, op, x, answer) then Some(Progress(p.i + 1, p.j, After(p.s, op, x))) else None
    case _ => None
  }

  /** An entry of the second log takes effect when it was answered yes. */
  function Played(s: set<int>, op: Op, y: int, answer: char): set<int> { if answer == 'y' then After(s, op, y) else s }

  function PlaySecond(t2: seq<string>, p: Progress): Option<Progress> {
    match ReadAt(t2, 2 * p.j, true)
    case Got(op, x, answer) => Some(Progress(p.i, p.j + 1, Played(p.s, op, x, answer)))
    case _ => None
  }

  lemma ReplayMore(t1: seq<string>, t2: seq<string>, order: seq<bool>, first: bool)
    requires Replay(t1, t2, order).Some?
    ensures var p := Replay(t1, t2, order).value;
      Replay(t1, t2, order + [first]) == if first then PlayFirst(t1, p) else PlaySecond(t2, p)
  {
    assert (order + [first])[..|order|] == order;
  }

  datatype Verdict = Consistent | Inconsistent | WeirdString(token: string) | Thrown

  const NOTHING := Progress(0, 0, {})

  /** The verdict without a list and without waiting: go on with the first log while its answers are right, and
      otherwise with the second. */
  function Judge(t1: seq<string>, t2: seq<string>, p: Progress): Verdict
    decreases |t1| - p.i, |t2| - p.j
  {
    match ReadAt(t1, 2 * p.i, false)
    case End => Consistent
    case Weird(token) => WeirdString(token)
    case OutOfRange => Thrown
    case Got(op, x, answer) =>
      if Right(p.s, op, x, answer) then Judge(t1, t2, Progress(p.i + 1, p.j, After(p.s, op, x))) else
      match ReadAt(t2, 2 * p.j, true)
      case End => Inconsistent
      case Weird(token) => WeirdString(token)
      case OutOfRange => Thrown
      case Got(op2, y, answer2) => Judge(t1, t2, Progress(p.i, p.j + 1, Played(p.s, op2, y, answer2)))
  }

  /** The next answer of the first log is wrong. */
  predicate Wrong(t1: seq<string>, p: Progress) { ReadAt(t1, 2 * p.i, false).Got? && PlayFirst(t1, p) == None }

  lemma JudgeFirst(t1: seq<string>, t2: seq<string>, p: Progress)
    requires PlayFirst(t1, p).Some?
    ensures Judge(t1, t2, p) == Judge(t1, t2, PlayFirst(t1, p).value)
  {
  }

  lemma JudgeSecond(t1: seq<string>, t2: seq<string>, p: Progress)
    requires Wrong(t1, p) && PlaySecond(t2, p).Some?
    ensures Judge(t1, t2, p) == Judge(t1, t2, PlaySecond(t2, p).value)
  {
  }

  // ---------------------------------------------------------------- waiting for the second thread

  /** The answer needs `x` to be in the set. */
  predicate NeedsPresent(op: Op, answer: char) { if op.Add? then answer == 'n' else answer == 'y' }

  /** The entry of the second log that is waited for: an addition or a removal of `x`, answered yes. */
  function Wanted(op: Op, answer: char): Op { if NeedsPresent(op, answer) then Add else Remove }

  /** The two numbers that say what to do with the list when the wait is over. */
  predicate Flags(op: Op, answer: char, rmv: int, add2: int) {
    && rmv == (if op.Remove? && answer == 'y' then 1 else 0)
    && add2 == (if op.Add? && answer == 'y' then 1 else 0)
  }

  /** While an entry waits, its answer is wrong for the set `s` of the order so far, and the list `l` differs from
      `s` at most in `x`. */
  ghost predicate Pending(op: Op, x: int, answer: char, s: set<int>, l: set<int>, want: Op, rmv: int, add2: int) {
    && (answer == 'y' || answer == 'n') && !Right(s, op, x, answer)
    && want == Wanted(op, answer) && Flags(op, answer, rmv, add2)
    && forall z :: z != x ==> (z in l <==> z in s)
  }

  ghost predicate Waits(t1: seq<string>, p: Progress, l: set<int>, want: Op, x: int, rmv: int, add2: int) {
    match ReadAt(t1, 2 * p.i, false)
    case Got(op, y, answer) => y == x && Pending(op, x, answer, p.s, l, want, rmv, add2)
    case _ => false
  }

  lemma StillPending(op: Op, x: int, answer: char, s: set<int>, l: set<int>, want: Op, rmv: int, add2: int, op2: Op,
                     y: int, answer2: char)
    requires Pending(op, x, answer, s, l, want, rmv, add2) && !(op2 == want && y == x && answer2 == 'y')
    ensures Pending(op, x, answer, Played(s, op2, y, answer2), Played(l, op2, y, answer2), want, rmv, add2)
  {
  }

  /** What the list becomes when the wait is over. */
  function Settled(l: set<int>, want: Op, x: int, rmv: int, add2: int): set<int> {
    if want.Add? then (if rmv == 1 then l + {x} - {x} else l + {x}) else if add2 == 1 then l - {x} + {x} else l - {x}
  }

  lemma NowRight(op: Op, x: int, answer: char, s: set<int>, l: set<int>, want: Op, rmv: int, add2: int)
    requires Pending(op, x, answer, s, l, want, rmv, add2)
    ensures Right(After(s, want, x), op, x, answer)
    ensures Settled(l, want, x, rmv, add2) == After(After(s, want, x), op, x)
    ensures if want.Add? then add2 == 0 && (rmv == 0 || rmv == 1)
      else want.Remove? && rmv == 0 && (add2 == 0 || add2 == 1)
  {
    SameBut(l, s, x);
  }

  lemma SameBut(l: set<int>, s: set<int>, x: int)
    requires forall z :: z != x ==> (z in l <==> z in s)
    ensures l + {x} == s + {x} && l - {x} == s - {x}
  {
    forall z | z != x ensures z in l - {x} <==> z in s - {x} { assert z in l <==> z in s; }
    forall z | z != x ensures z in l + {x} <==> z in s + {x} { assert z in l <==> z in s; }
  }

  /** The checker's variables fit the order built so far: between waits the list is the set, and nothing is left to
      do. */
  ghost predicate Fits(t1: seq<string>, t2: seq<string>, order: seq<bool>, i: nat, j: nat, l: set<int>, threadd: int,
                       want: Op, x: int, rmv: int, add2: int) {
    && Replay(t1, t2, order).Some?
    && var p := Replay(t1, t2, order).value;
    && p.j == j && Judge(t1, t2, p) == Judge(t1, t2, NOTHING)
    && if threadd == 0 then p.i == i && l == p.s && rmv == 0 && add2 == 0
       else p.i + 1 == i && Waits(t1, p, l, want, x, rmv, add2)
  }

  /** The list when an entry of the first log has been tried on it. */
  lemma Tried(t1: seq<string>, t2: seq<string>, order: seq<bool>, i: nat, j: nat, l: set<int>, op: Op, x: int,
              answer: char) returns (order': seq<bool>)
    requires Fits(t1, t2, order, i, j, l, 0, Add, 0, 0, 0) && ReadAt(t1, 2 * i, false) == Got(op, x, answer)
    ensures Right(l, op, x, answer) ==> Fits(t1, t2, order', i + 1, j, After(l, op, x), 0, Add, 0, 0, 0)
    ensures !Right(l, op, x, answer) ==> Fits(t1, t2, order', i + 1, j, After(l, op, x), 1, Wanted(op, answer), x,
      if op.Remove? && answer == 'y' then 1 else 0, if op.Add? && answer == 'y' then 1 else 0)
  {
    order' := order;
    if Right(l, op, x, answer) {
      order' := order + [true];
      Placed(t1, t2, order, i, j, l, op, x, answer);
    } else {
      Began(t1, t2, order, i, j, l, op, x, answer);
    }
  }

  lemma Placed(t1: seq<string>, t2: seq<string>, order: seq<bool>, i: nat, j: nat, l: set<int>, op: Op, x: int,
               answer: char)
    requires Fits(t1, t2, order, i, j, l, 0, Add, 0, 0, 0) && ReadAt(t1, 2 * i, false) == Got(op, x, answer)
    requires Right(l, op, x, answer)
    ensures Fits(t1, t2, order + [true], i + 1, j, After(l, op, x), 0, Add, 0, 0, 0)
  {
    ReplayMore(t1, t2, order, true);
    JudgeFirst(t1, t2, Replay(t1, t2, order).value);
  }

  lemma Began(t1: seq<string>, t2: seq<string>, order: seq<bool>, i: nat, j: nat, l: set<int>, op: Op, x: int,
              answer: char)
    requires Fits(t1, t2, order, i, j, l, 0, Add, 0, 0, 0) && ReadAt(t1, 2 * i, false) == Got(op, x, answer)
    requires !Right(l, op, x, answer)
    ensures Fits(t1, t2, order, i + 1, j, After(l, op, x), 1, Wanted(op, answer), x,
      if op.Remove? && answer == 'y' then 1 else 0, if op.Add? && answer == 'y' then 1 else 0)
  {
  }

  /** An entry of the second log that is not the one waited for leaves the wrong answer wrong. */
  lemma Passed(t1: seq<string>, t2: seq<string>, order: seq<bool>, i: nat, j: nat, l: set<int>, want: Op, x: int,
               rmv: int, add2: int,
               op: Op, y: int, answer: char) returns (order': seq<bool>)
    requires Fits(t1, t2, order, i, j, l, 1, want, x, rmv, add2) && ReadAt(t2, 2 * j, true) == Got(op, y, answer)
    requires !(op == want && y == x && answer == 'y')
    ensures Fits(t1, t2, order', i, j + 1, Played(l, op, y, answer), 1, want, x, rmv, add2)
  {
    order' := order + [false];
    ReplayMore(t1, t2, order, false);
    var p := Replay(t1, t2, order).value;
    var e := ReadAt(t1, 2 * p.i, false);
    StillPending(e.op, x, e.answer, p.s, l, want, rmv, add2, op, y, answer);
  }

  /** The entry waited for makes list and set agree, and the waiting answer right. */
  lemma Arrived(t1: seq<string>, t2: seq<string>, order: seq<bool>, i: nat, j: nat, l: set<int>, want: Op, x: int,
                rmv: int, add2: int) returns (order': seq<bool>)
    requires Fits(t1, t2, order, i, j, l, 1, want, x, rmv, add2) && ReadAt(t2, 2 * j, true) == Got(want, x, 'y')
    ensures if want.Add? then add2 == 0 && (rmv == 0 || rmv == 1)
      else want.Remove? && rmv == 0 && (add2 == 0 || add2 == 1)
    ensures Fits(t1, t2, order', i, j + 1, Settled(l, want, x, rmv, add2), 0, Add, 0, 0, 0)
  {
    var p := Replay(t1, t2, order).value;
    var e := ReadAt(t1, 2 * p.i, false);
    NowRight(e.op, x, e.answer, p.s, l, want, rmv, add2);
    ReplayMore(t1, t2, order, false);
    ReplayMore(t1, t2, order + [false], true);
    order' := order + [false] + [true];
    JudgeSecond(t1, t2, p);
    JudgeFirst(t1, t2, PlaySecond(t2, p).value);
  }

  // ---------------------------------------------------------------- the checker

  /** Lines 87, 105 and 122: try an operation on the list. */
  method Try(list: SortedList.LinkedList, op: Op, x: int) returns (res: bool)
    requires list.View().Some?
    modifies list
    ensures res == Yes(old(list.View().value), op, x)
    ensures list.View() == Some(After(old(list.View().value), op, x))
  {
    match op
    case Add => res := list.Add(x);
    case Contains => res := list.Contains(x);
    case Remove => res := list.Remove(x);
  }

  /** Lines 154-182: one entry of the second log. */
  method Second(list: SortedList.LinkedList, op: Op, y: int, answer: char, want: Op, x: int, rmv: int, add2: int)
    returns (threadd: int, rmv': int, add2': int)
    requires list.View().Some?
    modifies list
    ensures threadd == if op == want && !op.Contains? && y == x && answer == 'y' then 0 else 1
    ensures rmv' == (if threadd == 0 && op.Add? && rmv == 1 then 0 else rmv)
    ensures add2' == (if threadd == 0 && op.Remove? && add2 == 1 then 0 else add2)
    ensures var l := old(list.View().value);
      list.View() == Some(if threadd == 1 then Played(l, op, y, answer) else Settled(l, want, x, rmv, add2))
  {
    threadd, rmv', add2' := 1, rmv, add2;
    var r;
    match op {
      case Add =>
        if answer == 'y' {
          r := list.Add(y);
        }
        if want.Add? && y == x && answer == 'y' {
          threadd := 0;
          if rmv == 1 {
            rmv' := 0;
            r := list.Remove(y);
          }
        }
      case Contains =>
      case Remove =>
        if answer == 'y' {
          r := list.Remove(y);
        }
        if want.Remove? && y == x && answer == 'y' {
          threadd := 0;
          if add2 == 1 {
            add2' := 0;
            r := list.Add(y);
          }
        }
    }
  }

  /** The whole checker. Its list and its waiting come to the verdict of `Judge`, and whatever it says, it has built an
      order that bears it out. */
  method Check(t1: seq<string>, t2: seq<string>) returns (v: Verdict)
    ensures v == Judge(t1, t2, NOTHING)
    ensures v == Consistent ==> exists order :: Explains(t1, t2, order)
    ensures v == Inconsistent ==> exists order :: Stuck(t1, t2, order)
    ensures v.WeirdString? ==> exists order :: Meets(t1, t2, order, Weird(v.token))
    ensures v.Thrown? ==> exists order :: Meets(t1, t2, order, OutOfRange)
  {
    var list := new SortedList.LinkedList();
    var i, j, threadd, want, number2, rmv, add2 := 0, 0, 0, Add, 0, 0, 0;
    ghost var order := [];
    while true
      invariant fresh(list) && list.View().Some? && i <= |t1| + 1 && j <= |t2| + 1
      invariant Fits(t1, t2, order, i, j, list.View().value, threadd, if threadd == 0 then Add else want,
        if threadd == 0 then 0 else number2, rmv, add2)
      decreases |t1| + |t2| + 2 - i - j
    {
      if threadd == 0 {
        var e := ReadEntry(t1, 2 * i, false);
        match e {
          case End =>
            assert Explains(t1, t2, order);
            return Consistent;
          case Weird(token) =>
            assert Meets(t1, t2, order, e);
            return WeirdString(token);
          case OutOfRange =>
            assert Meets(t1, t2, order, e);
            return Thrown;
          case Got(op, x, answer) =>
            order := Tried(t1, t2, order, i, j, list.View().value, op, x, answer);
            var res := Try(list, op, x);
            if (answer == 'y' && !res) || (answer == 'n' && res) {
              threadd, number2 := 1, x;
              want := if op.Add? == (answer == 'y') then Remove else Add;
              if answer == 'y' && op.Add? { add2 := 1; }
              if answer == 'y' && op.Remove? { rmv := 1; }
            }
            i := i + 1;
        }
      } else {
        var e := ReadEntry(t2, 2 * j, true);
        match e {
          case End =>
            assert Stuck(t1, t2, order);
            return Inconsistent;
          case Weird(token) =>
            assert Meets(t1, t2, order, e);
            return WeirdString(token);
          case OutOfRange =>
            assert Meets(t1, t2, order, e);
            return Thrown;
          case Got(op, y, answer) =>
            if op == want && y == number2 && answer == 'y' {
              order := Arrived(t1, t2, order, i, j, list.View().value, want, number2, rmv, add2);
            } else {
              order := Passed(t1, t2, order, i, j, list.View().value, want, number2, rmv, add2, op, y, answer);
            }
            threadd, rmv, add2 := Second(list, op, y, answer, want, number2, rmv, add2);
            j := j + 1;
        }
      }
    }
  }

  /** The order plays the whole first log, with every answer right, and a prefix of the second. */
  ghost predicate Explains(t1: seq<string>, t2: seq<string>, order: seq<bool>) {
    && Replay(t1, t2, order).Some?
    && ReadAt(t1, 2 * Replay(t1, t2, order).value.i, false) == End
  }

  /** The order has played the whole second log, and the next answer of the first is wrong. */
  ghost predicate Stuck(t1: seq<string>, t2: seq<string>, order: seq<bool>) {
    && Replay(t1, t2, order).Some?
    && var p := Replay(t1, t2, order).value;
    && ReadAt(t2, 2 * p.j, true) == End
    && ReadAt(t1, 2 * p.i, false).Got?
    && var e := ReadAt(t1, 2 * p.i, false);
    && !Right(p.s, e.op, e.x, e.answer)
  }

  /** The order comes to a place where one of the logs goes on with `r`. */
  ghost predicate Meets(t1: seq<string>, t2: seq<string>, order: seq<bool>, r: Read) {
    && Replay(t1, t2, order).Some?
    && var p := Replay(t1, t2, order).value;
       ReadAt(t1, 2 * p.i, false) == r || ReadAt(t2, 2 * p.j, true) == r
  }

  // ---------------------------------------------------------------- well-formed logs

  function MergeFirst(es1: seq<Entry>, p: Progress): Option<Progress> {
    if p.i < |es1| && Yes(p.s, es1[p.i].op, es1[p.i].x) == es1[p.i].yes
    then Some(Progress(p.i + 1, p.j, After(p.s, es1[p.i].op, es1[p.i].x))) else None
  }

  function MergeSecond(es2: seq<Entry>, p: Progress): Option<Progress> {
    if p.j < |es2|
    then Some(Progress(p.i, p.j + 1, if es2[p.j].yes then After(p.s, es2[p.j].op, es2[p.j].x) else p.s)) else None
  }

  /** The same on entries: log `es1` and a prefix of `es2`, in the given order. */
  function Merge(es1: seq<Entry>, es2: seq<Entry>, order: seq<bool>): Option<Progress> {
    if order == [] then Some(Progress(0, 0, {})) else
    match Merge(es1, es2, order[..|order| - 1])
    case None => None
    case Some(p) => if order[|order| - 1] then MergeFirst(es1, p) else MergeSecond(es2, p)
  }

  lemma MergeStep(es1: seq<Entry>, es2: seq<Entry>, p: Progress)
    requires Fits32(es1) && Fits32(es2) && p.i <= |es1| && p.j <= |es2|
    ensures PlayFirst(Tokens(es1), p) == MergeFirst(es1, p) && PlaySecond(Tokens(es2), p) == MergeSecond(es2, p)
  {
    ReadTokens(es1, p.i, false);
    ReadTokens(es2, p.j, true);
  }

  lemma {:induction false} MergeIsReplay(es1: seq<Entry>, es2: seq<Entry>, order: seq<bool>)
    requires Fits32(es1) && Fits32(es2)
    ensures Replay(Tokens(es1), Tokens(es2), order) == Merge(es1, es2, order)
    ensures Merge(es1, es2, order).Some? ==>
      Merge(es1, es2, order).value.i <= |es1| && Merge(es1, es2, order).value.j <= |es2|
  {
    if order != [] {
      var before := order[..|order| - 1];
      MergeIsReplay(es1, es2, before);
      if Merge(es1, es2, before).Some? {
        MergeStep(es1, es2, Merge(es1, es2, before).value);
      }
    }
  }

  /** On well-formed logs "consistent" means: all of the first log, merged with a prefix of the second, is an order in
      which every answer of the first log is the answer of the set. */
  lemma ConsistentMeans(es1: seq<Entry>, es2: seq<Entry>, order: seq<bool>)
    requires Fits32(es1) && Fits32(es2) && Explains(Tokens(es1), Tokens(es2), order)
    ensures Merge(es1, es2, order).Some? && Merge(es1, es2, order).value.i == |es1|
  {
    MergeIsReplay(es1, es2, order);
    ReadTokens(es1, Merge(es1, es2, order).value.i, false);
  }
}
