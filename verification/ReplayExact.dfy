/**
 When the verdict "inconsistent" of test.cpp can be trusted.

 The checker places every answer of the first log as early as it can and never takes that back. This is right
 whenever the two logs change different keys, or the second changes one key at most; for any other two sets of
 changed keys there are logs that an order explains and the checker rejects.
 */
module ReplayExact {
  import opened Options
  import opened ReplayLog
  import opened ReplayChecker

  /** The keys that a log adds or removes with the answer yes. */
  function Changed(es: seq<Entry>): set<int> { set e | e in es && e.yes && !e.op.Contains? :: e.x }

  /** The verdict says whether there is an order that explains the first log. */
  ghost predicate Exact(es1: seq<Entry>, es2: seq<Entry>) {
    Judge(Tokens(es1), Tokens(es2), NOTHING) ==
    if exists order :: Explains(Tokens(es1), Tokens(es2), order) then Consistent else Inconsistent
  }

  // ---------------------------------------------------------------- the verdict on entries

  ghost predicate Within(es1: seq<Entry>, es2: seq<Entry>, p: Progress) { p.i <= |es1| && p.j <= |es2| }

  predicate Says(es1: seq<Entry>, es2: seq<Entry>, p: Progress)
    requires Within(es1, es2, p)
    decreases |es1| - p.i, |es2| - p.j
  {
    if p.i == |es1| then true
    else if MergeFirst(es1, p).Some? then Says(es1, es2, MergeFirst(es1, p).value)
    else p.j < |es2| && Says(es1, es2, MergeSecond(es2, p).value)
  }

  lemma {:induction false} SaysJudge(es1: seq<Entry>, es2: seq<Entry>, p: Progress)
    requires Fits32(es1) && Fits32(es2) && Within(es1, es2, p)
    ensures Judge(Tokens(es1), Tokens(es2), p) == if Says(es1, es2, p) then Consistent else Inconsistent
    decreases |es1| - p.i, |es2| - p.j
  {
    MergeStep(es1, es2, p);
    ReadTokens(es1, p.i, false);
    ReadTokens(es2, p.j, true);
    if p.i < |es1| {
      if MergeFirst(es1, p).Some? {
        JudgeFirst(Tokens(es1), Tokens(es2), p);
        SaysJudge(es1, es2, MergeFirst(es1, p).value);
      } else if p.j < |es2| {
        JudgeSecond(Tokens(es1), Tokens(es2), p);
        SaysJudge(es1, es2, MergeSecond(es2, p).value);
      }
    }
  }

  // ---------------------------------------------------------------- logs that change different keys

  /** The set after the first `k` entries of a log on its own. */
  function Effect(es: seq<Entry>, k: nat): (s: set<int>)
    requires k <= |es|
    ensures s <= Changed(es)
  {
    if k == 0 then {} else
    var e := es[k - 1];
    assert e in es;
    if e.yes then After(Effect(es, k - 1), e.op, e.x) else Effect(es, k - 1)
  }

  /** The set depends only on how far each log has come. */
  ghost predicate Sum(es1: seq<Entry>, es2: seq<Entry>, p: Progress) {
    Within(es1, es2, p) && p.s == Effect(es1, p.i) + Effect(es2, p.j)
  }

  lemma SumFirst(es1: seq<Entry>, es2: seq<Entry>, p: Progress)
    requires Changed(es1) !! Changed(es2) && Sum(es1, es2, p) && MergeFirst(es1, p).Some?
    ensures Sum(es1, es2, MergeFirst(es1, p).value)
  {
    var e := es1[p.i];
    assert e in es1;
    assert e.yes && !e.op.Contains? ==> e.x !in Effect(es2, p.j);
    assert Effect(es1, p.i + 1) == if e.yes then After(Effect(es1, p.i), e.op, e.x) else Effect(es1, p.i);
  }

  lemma SumSecond(es1: seq<Entry>, es2: seq<Entry>, p: Progress)
    requires Changed(es1) !! Changed(es2) && Sum(es1, es2, p) && MergeSecond(es2, p).Some?
    ensures Sum(es1, es2, MergeSecond(es2, p).value)
  {
    var e := es2[p.j];
    assert e in es2;
    assert e.yes && !e.op.Contains? ==> e.x !in Effect(es1, p.i);
    assert Effect(es2, p.j + 1) == if e.yes then After(Effect(es2, p.j), e.op, e.x) else Effect(es2, p.j);
  }

  /** Where the checker is when an order has come to `p`. */
  ghost predicate Trails(es1: seq<Entry>, es2: seq<Entry>, p: Progress, q: Progress) {
    Sum(es1, es2, p) && Sum(es1, es2, q) && q.i == p.i && q.j <= p.j
  }

  /** By the time the order has reached, the checker finds the next answer right too. */
  lemma {:induction false} CatchUp(es1: seq<Entry>, es2: seq<Entry>, p: Progress, q: Progress) returns (r: Progress)
    requires Changed(es1) !! Changed(es2) && Trails(es1, es2, p, q) && MergeFirst(es1, p).Some?
    ensures Trails(es1, es2, p, r) && MergeFirst(es1, r).Some? && Says(es1, es2, q) == Says(es1, es2, r)
    decreases p.j - q.j
  {
    if MergeFirst(es1, q).Some? {
      r := q;
    } else {
      SumSecond(es1, es2, q);
      r := CatchUp(es1, es2, p, MergeSecond(es2, q).value);
    }
  }

  lemma {:induction false} Early(es1: seq<Entry>, es2: seq<Entry>, order: seq<bool>) returns (q: Progress)
    requires Changed(es1) !! Changed(es2) && Merge(es1, es2, order).Some?
    ensures Trails(es1, es2, Merge(es1, es2, order).value, q) && Says(es1, es2, NOTHING) == Says(es1, es2, q)
  {
    if order == [] {
      q := NOTHING;
    } else {
      var p := Merge(es1, es2, order[..|order| - 1]).value;
      q := Early(es1, es2, order[..|order| - 1]);
      if order[|order| - 1] {
        SumFirst(es1, es2, p);
        q := CatchUp(es1, es2, p, q);
        SumFirst(es1, es2, q);
        q := MergeFirst(es1, q).value;
      } else {
        SumSecond(es1, es2, p);
      }
    }
  }

  // ---------------------------------------------------------------- a second log that changes one key

  /** The entry puts `b` into the set, or takes it out. */
  predicate Sets(e: Entry, b: int, present: bool) { e.yes && e.x == b && e.op == if present then Add else Remove }

  predicate Same(s: set<int>, t: set<int>, z: int) { z in s <==> z in t }

  /** The checker is behind the order; if they differ in `b`, the second log makes up for it in between. */
  ghost predicate Behind(es1: seq<Entry>, es2: seq<Entry>, b: int, p: Progress, q: Progress) {
    && Within(es1, es2, p) && q.i == p.i && q.j <= p.j
    && (forall z :: z != b ==> Same(q.s, p.s, z))
    && (Same(q.s, p.s, b) || exists k :: q.j <= k < p.j && Sets(es2[k], b, b in p.s))
  }

  lemma OrderMoves(es1: seq<Entry>, es2: seq<Entry>, b: int, p: Progress, q: Progress)
    requires Changed(es2) <= {b} && Behind(es1, es2, b, p, q) && MergeSecond(es2, p).Some?
    ensures Behind(es1, es2, b, MergeSecond(es2, p).value, q)
  {
    var e, p' := es2[p.j], MergeSecond(es2, p).value;
    assert e in es2 && (e.yes && !e.op.Contains? ==> e.x in Changed(es2));
    forall z | z != b ensures Same(q.s, p'.s, z) { assert Same(q.s, p.s, z); }
    if !Same(q.s, p'.s, b) {
      if Same(p.s, p'.s, b) {
        var k :| q.j <= k < p.j && Sets(es2[k], b, b in p.s);
        assert Sets(es2[k], b, b in p'.s);
      } else {
        assert Sets(es2[p.j], b, b in p'.s);
      }
    }
  }

  lemma BothMove(es1: seq<Entry>, es2: seq<Entry>, b: int, p: Progress, q: Progress)
    requires Behind(es1, es2, b, p, q) && MergeFirst(es1, p).Some? && MergeFirst(es1, q).Some?
    ensures Behind(es1, es2, b, MergeFirst(es1, p).value, MergeFirst(es1, q).value)
  {
    var x, p', q' := es1[p.i].x, MergeFirst(es1, p).value, MergeFirst(es1, q).value;
    assert Same(q'.s, p'.s, x);
    forall z | z != b ensures Same(q'.s, p'.s, z) { assert Same(q.s, p.s, z); }
    if x != b && !Same(q.s, p.s, b) {
      var k :| q.j <= k < p.j && Sets(es2[k], b, b in p.s);
      assert Sets(es2[k], b, b in p'.s);
    }
  }

  lemma CheckerMoves(es1: seq<Entry>, es2: seq<Entry>, b: int, p: Progress, q: Progress)
    requires Changed(es2) <= {b} && Behind(es1, es2, b, p, q) && !Same(q.s, p.s, b)
    ensures MergeSecond(es2, q).Some? && Behind(es1, es2, b, p, MergeSecond(es2, q).value)
  {
    var k :| q.j <= k < p.j && Sets(es2[k], b, b in p.s);
    var e, q' := es2[q.j], MergeSecond(es2, q).value;
    assert e in es2 && (e.yes && !e.op.Contains? ==> e.x in Changed(es2));
    forall z | z != b ensures Same(q'.s, p.s, z) { assert Same(q.s, p.s, z); }
    if !Same(q'.s, p.s, b) {
      assert k != q.j;
    }
  }

  lemma {:induction false} CatchUpOne(es1: seq<Entry>, es2: seq<Entry>, b: int, p: Progress, q: Progress)
    returns (r: Progress)
    requires Changed(es2) <= {b} && Behind(es1, es2, b, p, q) && MergeFirst(es1, p).Some?
    ensures Behind(es1, es2, b, p, r) && MergeFirst(es1, r).Some? && Says(es1, es2, q) == Says(es1, es2, r)
    decreases p.j - q.j
  {
    if MergeFirst(es1, q).Some? {
      r := q;
    } else {
      assert !Same(q.s, p.s, es1[p.i].x);
      CheckerMoves(es1, es2, b, p, q);
      r := CatchUpOne(es1, es2, b, p, MergeSecond(es2, q).value);
    }
  }

  lemma {:induction false} EarlyOne(es1: seq<Entry>, es2: seq<Entry>, b: int, order: seq<bool>) returns (q: Progress)
    requires Changed(es2) <= {b} && Merge(es1, es2, order).Some?
    ensures Behind(es1, es2, b, Merge(es1, es2, order).value, q) && Says(es1, es2, NOTHING) == Says(es1, es2, q)
  {
    if order == [] {
      q := NOTHING;
    } else {
      var p := Merge(es1, es2, order[..|order| - 1]).value;
      q := EarlyOne(es1, es2, b, order[..|order| - 1]);
      if order[|order| - 1] {
        q := CatchUpOne(es1, es2, b, p, q);
        BothMove(es1, es2, b, p, q);
        q := MergeFirst(es1, q).value;
      } else {
        OrderMoves(es1, es2, b, p, q);
      }
    }
  }

  lemma NonEmpty(s: set<int>)
    ensures s == {} || exists x :: x in s
  {
    if forall x :: x !in s {
      assert s == {};
    }
  }

  lemma OnlyKey(s: set<int>) returns (b: int)
    requires |s| <= 1
    ensures s <= {b}
  {
    if s == {} {
      b := 0;
    } else {
      NonEmpty(s);
      b :| b in s;
      var rest := s - {b};
      assert |rest| == 0;
      assert s == rest + {b};
    }
  }

  /** An order that explains the first log is enough for "consistent". */
  lemma NothingMissed(es1: seq<Entry>, es2: seq<Entry>, order: seq<bool>)
    requires Changed(es1) !! Changed(es2) || |Changed(es2)| <= 1
    requires Merge(es1, es2, order).Some? && Merge(es1, es2, order).value.i == |es1|
    ensures Says(es1, es2, NOTHING)
  {
    if Changed(es1) !! Changed(es2) {
      var q := Early(es1, es2, order);
    } else {
      var b := OnlyKey(Changed(es2));
      var q := EarlyOne(es1, es2, b, order);
    }
  }

  // ---------------------------------------------------------------- logs that are misjudged

  /** Every key of `ks` is added and taken out again. */
  function Visits(ks: seq<int>): seq<Entry> {
    seq(2 * |ks|, i requires 0 <= i < 2 * |ks| => Entry(if i % 2 == 0 then Add else Remove, ks[i / 2], true))
  }

  /** Key `k` is in the set for a while, during which key `m` is seen. */
  function First(k: int, m: int, ks: seq<int>): seq<Entry> {
    Visits(ks) + [Entry(Add, k, true), Entry(Contains, m, true), Entry(Remove, k, true)]
  }

  /** Key `k` comes and goes before `m` comes. */
  function Second(k: int, m: int, ks: seq<int>): seq<Entry> {
    [Entry(Add, k, true), Entry(Remove, k, true), Entry(Add, m, true)]
    + seq(|ks|, i requires 0 <= i < |ks| => Entry(Add, ks[i], true))
  }

  function Trues(n: nat): seq<bool> { seq(n, i => true) }

  /** The set after entry `e`, played on `s`. */
  predicate Leads(s: set<int>, e: Entry, s': set<int>) { s' == if e.yes then After(s, e.op, e.x) else s }

  predicate Fitting(s: set<int>, e: Entry) { Yes(s, e.op, e.x) == e.yes }

  /** As `Merge`, with the answers of the second log right at their places, too: a history of a set. */
  function History(es1: seq<Entry>, es2: seq<Entry>, order: seq<bool>): Option<Progress> {
    if order == [] then Some(NOTHING) else
    match History(es1, es2, order[..|order| - 1])
    case None => None
    case Some(p) =>
      if order[|order| - 1] then MergeFirst(es1, p)
      else if p.j < |es2| && Fitting(p.s, es2[p.j]) then MergeSecond(es2, p) else None
  }

  /** The two logs are those of one run: some order of all their entries is a history of a set. */
  ghost predicate Happened(es1: seq<Entry>, es2: seq<Entry>) {
    exists order, s :: History(es1, es2, order) == Some(Progress(|es1|, |es2|, s))
  }

  lemma {:induction false} HistoryMerges(es1: seq<Entry>, es2: seq<Entry>, order: seq<bool>)
    requires History(es1, es2, order).Some?
    ensures Merge(es1, es2, order) == History(es1, es2, order)
  {
    if order != [] {
      HistoryMerges(es1, es2, order[..|order| - 1]);
    }
  }

  lemma OrderFirst(es1: seq<Entry>, es2: seq<Entry>, order: seq<bool>, p: Progress, e: Entry, s': set<int>)
    requires History(es1, es2, order) == Some(p) && p.i < |es1| && es1[p.i] == e && e.yes && Fitting(p.s, e)
    requires Leads(p.s, e, s')
    ensures History(es1, es2, order + [true]) == Some(Progress(p.i + 1, p.j, s'))
  {
    assert (order + [true])[..|order|] == order;
  }

  lemma OrderSecond(es1: seq<Entry>, es2: seq<Entry>, order: seq<bool>, p: Progress, e: Entry, s': set<int>)
    requires History(es1, es2, order) == Some(p) && p.j < |es2| && es2[p.j] == e && Fitting(p.s, e)
    requires Leads(p.s, e, s')
    ensures History(es1, es2, order + [false]) == Some(Progress(p.i, p.j + 1, s'))
  {
    assert (order + [false])[..|order|] == order;
  }

  lemma SaysFirst(es1: seq<Entry>, es2: seq<Entry>, p: Progress, e: Entry, s': set<int>)
    requires Within(es1, es2, p) && p.i < |es1| && es1[p.i] == e && e.yes && Fitting(p.s, e) && Leads(p.s, e, s')
    ensures Says(es1, es2, p) == Says(es1, es2, Progress(p.i + 1, p.j, s'))
  {
    assert MergeFirst(es1, p) == Some(Progress(p.i + 1, p.j, s'));
  }

  lemma SaysSecond(es1: seq<Entry>, es2: seq<Entry>, p: Progress, e: Entry, s': set<int>)
    requires Within(es1, es2, p) && p.i < |es1| && !Fitting(p.s, es1[p.i]) && p.j < |es2| && es2[p.j] == e
    requires Leads(p.s, e, s')
    ensures Says(es1, es2, p) == Says(es1, es2, Progress(p.i, p.j + 1, s'))
  {
    assert MergeSecond(es2, p) == Some(Progress(p.i, p.j + 1, s'));
  }

  lemma VisitsAt(k: int, m: int, ks: seq<int>, n: nat)
    requires n < |ks|
    ensures First(k, m, ks)[2 * n] == Entry(Add, ks[n], true)
    ensures First(k, m, ks)[2 * n + 1] == Entry(Remove, ks[n], true)
  {
  }

  lemma {:induction false} Visited(k: int, m: int, ks: seq<int>, es2: seq<Entry>, n: nat)
    requires n <= |ks|
    ensures var es1 := First(k, m, ks);
      && History(es1, es2, Trues(2 * n)) == Some(Progress(2 * n, 0, {}))
      && Says(es1, es2, NOTHING) == Says(es1, es2, Progress(2 * n, 0, {}))
  {
    if n > 0 {
      Visited(k, m, ks, es2, n - 1);
      VisitsAt(k, m, ks, n - 1);
      VisitMore(First(k, m, ks), es2, 2 * n - 2, ks[n - 1]);
    }
  }

  lemma VisitMore(es1: seq<Entry>, es2: seq<Entry>, c: nat, x: int)
    requires c + 1 < |es1| && es1[c] == Entry(Add, x, true) && es1[c + 1] == Entry(Remove, x, true)
    requires History(es1, es2, Trues(c)) == Some(Progress(c, 0, {}))
    ensures History(es1, es2, Trues(c + 2)) == Some(Progress(c + 2, 0, {}))
    ensures Says(es1, es2, Progress(c, 0, {})) == Says(es1, es2, Progress(c + 2, 0, {}))
  {
    var p, q := Progress(c, 0, {}), Progress(c + 1, 0, {x});
    OrderFirst(es1, es2, Trues(c), p, es1[c], {x});
    OrderFirst(es1, es2, Trues(c) + [true], q, es1[c + 1], {});
    assert Trues(c) + [true] + [true] == Trues(c + 2);
    SaysFirst(es1, es2, p, es1[c], {x});
    SaysFirst(es1, es2, q, es1[c + 1], {});
  }

  /** Nothing more of the second log brings `k`, which the last answer of the first needs. */
  lemma {:induction false} TooLate(es1: seq<Entry>, es2: seq<Entry>, k: int, p: Progress)
    requires Within(es1, es2, p) && p.i < |es1| && es1[p.i] == Entry(Remove, k, true) && k !in p.s
    requires forall j :: p.j <= j < |es2| ==> !Sets(es2[j], k, true)
    ensures !Says(es1, es2, p)
    decreases |es2| - p.j
  {
    if p.j < |es2| {
      assert !Sets(es2[p.j], k, true);
      TooLate(es1, es2, k, MergeSecond(es2, p).value);
    }
  }

  /** The checker places the addition of `k` at once, and then has to let the second log's removal of it pass. */
  lemma Rejected(k: int, m: int, ks1: seq<int>, ks2: seq<int>)
    requires k != m && k !in ks2
    ensures !Says(First(k, m, ks1), Second(k, m, ks2), NOTHING)
  {
    var es1, es2, c := First(k, m, ks1), Second(k, m, ks2), 2 * |ks1|;
    Visited(k, m, ks1, es2, |ks1|);
    assert es1[c] == Entry(Add, k, true) && es1[c + 1] == Entry(Contains, m, true)
      && es1[c + 2] == Entry(Remove, k, true);
    SaysFirst(es1, es2, Progress(c, 0, {}), es1[c], {k});
    SaysSecond(es1, es2, Progress(c + 1, 0, {k}), es2[0], {k});
    SaysSecond(es1, es2, Progress(c + 1, 1, {k}), es2[1], {});
    SaysSecond(es1, es2, Progress(c + 1, 2, {}), es2[2], {m});
    SaysFirst(es1, es2, Progress(c + 1, 3, {m}), es1[c + 1], {m});
    TooLate(es1, es2, k, Progress(c + 2, 3, {m}));
  }

  /** The second thread's first two entries come first, and its third after `k` was added again. */
  function Order(n: nat): seq<bool> { Trues(2 * n) + [false] + [false] + [true] + [false] + [true] + [true] }

  /** Six entries in that order, after `o`. */
  lemma Interleaved(es1: seq<Entry>, es2: seq<Entry>, o: seq<bool>, c: nat, k: int, m: int)
    requires k != m && History(es1, es2, o) == Some(Progress(c, 0, {})) && c + 2 < |es1| && |es2| >= 3
    requires es1[c] == Entry(Add, k, true) && es1[c + 1] == Entry(Contains, m, true)
    requires es1[c + 2] == Entry(Remove, k, true)
    requires es2[0] == Entry(Add, k, true) && es2[1] == Entry(Remove, k, true) && es2[2] == Entry(Add, m, true)
    ensures History(es1, es2, o + [false] + [false] + [true] + [false] + [true] + [true])
      == Some(Progress(c + 3, 3, {m}))
  {
    var o2, o4 := o + [false] + [false], o + [false] + [false] + [true] + [false];
    OrderSecond(es1, es2, o, Progress(c, 0, {}), es2[0], {k});
    OrderSecond(es1, es2, o + [false], Progress(c, 1, {k}), es2[1], {});
    OrderFirst(es1, es2, o2, Progress(c, 2, {}), es1[c], {k});
    OrderSecond(es1, es2, o2 + [true], Progress(c + 1, 2, {k}), es2[2], {k, m});
    OrderFirst(es1, es2, o4, Progress(c + 1, 3, {k, m}), es1[c + 1], {k, m});
    OrderFirst(es1, es2, o4 + [true], Progress(c + 2, 3, {k, m}), es1[c + 2], {m});
  }

  lemma Explained(k: int, m: int, ks1: seq<int>, ks2: seq<int>)
    requires k != m
    ensures History(First(k, m, ks1), Second(k, m, ks2), Order(|ks1|)) == Some(Progress(|First(k, m, ks1)|, 3, {m}))
  {
    var es1, es2, c := First(k, m, ks1), Second(k, m, ks2), 2 * |ks1|;
    Visited(k, m, ks1, es2, |ks1|);
    assert es1[c] == Entry(Add, k, true) && es1[c + 1] == Entry(Contains, m, true)
      && es1[c + 2] == Entry(Remove, k, true);
    Interleaved(es1, es2, Trues(c), c, k, m);
  }

  /** From `j` on the log only adds keys that are not in `s`, each of them once. */
  ghost predicate AddsNew(es: seq<Entry>, j: nat, s: set<int>) {
    && (forall i :: j <= i < |es| ==> Sets(es[i], es[i].x, true) && es[i].x !in s)
    && (forall i, i' :: j <= i < i' < |es| ==> es[i].x != es[i'].x)
  }

  /** Such additions of the second log can come last. */
  lemma {:induction false} AddedLast(es1: seq<Entry>, es2: seq<Entry>, o: seq<bool>, p: Progress)
    returns (order: seq<bool>, s: set<int>)
    requires History(es1, es2, o) == Some(p) && p.j <= |es2| && AddsNew(es2, p.j, p.s)
    ensures History(es1, es2, order) == Some(Progress(p.i, |es2|, s))
    decreases |es2| - p.j
  {
    if p.j == |es2| {
      order, s := o, p.s;
    } else {
      var x := es2[p.j].x;
      assert Sets(es2[p.j], x, true);
      OrderSecond(es1, es2, o, p, es2[p.j], p.s + {x});
      order, s := AddedLast(es1, es2, o + [false], Progress(p.i, p.j + 1, p.s + {x}));
    }
  }

  lemma SecondAdds(k: int, m: int, ks: seq<int>)
    requires m !in ks && Unrepeated(ks)
    ensures |Second(k, m, ks)| >= 3 && AddsNew(Second(k, m, ks), 3, {m})
  {
    var es := Second(k, m, ks);
    forall i | 3 <= i < |es| ensures es[i] == Entry(Add, ks[i - 3], true) {}
  }

  ghost predicate Unrepeated(ks: seq<int>) { forall i, j :: 0 <= i < j < |ks| ==> ks[i] != ks[j] }

  /** The shortest histories of a set that the checker calls inconsistent: the second thread adds and removes `k` before
      the first adds it, and adds `m` before the first looks for it. */
  lemma MissedHistory(k: int, m: int, es1: seq<Entry>, es2: seq<Entry>, order: seq<bool>)
    requires k != m && Word(k) && Word(m)
    requires es1 == [Entry(Add, k, true), Entry(Contains, m, true), Entry(Remove, k, true)]
    requires es2 == [Entry(Add, k, true), Entry(Remove, k, true), Entry(Add, m, true)]
    requires order == [false, false, true, false, true, true]
    ensures Judge(Tokens(es1), Tokens(es2), NOTHING) == Inconsistent
    ensures History(es1, es2, order) == Some(Progress(3, 3, {m}))
  {
    assert es1 == First(k, m, []) && es2 == Second(k, m, []) && order == Order(0);
    Rejected(k, m, [], []);
    SaysJudge(es1, es2, NOTHING);
    Explained(k, m, [], []);
  }

  lemma {:induction false} Listed(s: set<int>) returns (ks: seq<int>)
    ensures Unrepeated(ks) && forall x :: x in ks <==> x in s
  {
    ks := [];
    if x :| x in s {
      var rest := Listed(s - {x});
      assert x !in rest;
      ks := rest + [x];
    }
  }

  /** A 32-bit integer. */
  predicate Word(x: int) { -(M / 2) <= x < M / 2 }

  lemma FirstChanges(k: int, m: int, ks: seq<int>)
    ensures forall x :: x in Changed(First(k, m, ks)) <==> x == k || x in ks
  {
    var es := First(k, m, ks);
    assert es[2 * |ks|] == Entry(Add, k, true) && es[2 * |ks|] in es;
    forall x | x in ks ensures x in Changed(es) {
      var n :| 0 <= n < |ks| && ks[n] == x;
      VisitsAt(k, m, ks, n);
      assert es[2 * n] in es;
    }
  }

  lemma FirstFits(k: int, m: int, ks: seq<int>)
    requires Word(k) && Word(m) && forall x :: x in ks ==> Word(x)
    ensures Fits32(First(k, m, ks))
  {
    var es := First(k, m, ks);
    forall i | 0 <= i < |es| ensures -(M / 2) <= es[i].x < M / 2 {
      if i < 2 * |ks| {
        assert es[i].x == ks[i / 2];
      }
      assert Word(es[i].x);
    }
  }

  lemma SecondFits(k: int, m: int, ks: seq<int>)
    requires Word(k) && Word(m) && forall x :: x in ks ==> Word(x)
    ensures Fits32(Second(k, m, ks))
  {
    var es := Second(k, m, ks);
    forall i | 0 <= i < |es| ensures -(M / 2) <= es[i].x < M / 2 {
      if i >= 3 {
        assert es[i].x == ks[i - 3];
      }
      assert Word(es[i].x);
    }
  }

  lemma SecondChanges(k: int, m: int, ks: seq<int>)
    ensures forall x :: x in Changed(Second(k, m, ks)) <==> x == k || x == m || x in ks
  {
    var es := Second(k, m, ks);
    assert es[0] in es && es[2] in es;
    forall x | x in ks ensures x in Changed(es) {
      var n :| 0 <= n < |ks| && ks[n] == x;
      assert es[n + 3] == Entry(Add, x, true) && es[n + 3] in es;
    }
  }

  lemma FirstLog(a: set<int>, k: int, m: int) returns (ks: seq<int>)
    requires (forall x :: x in a ==> Word(x)) && k in a && Word(m)
    ensures Changed(First(k, m, ks)) == a && Fits32(First(k, m, ks))
  {
    ks := Listed(a - {k});
    FirstChanges(k, m, ks);
    FirstFits(k, m, ks);
    forall x ensures x in Changed(First(k, m, ks)) <==> x in a { assert x in ks <==> x in a - {k}; }
  }

  lemma SecondLog(b: set<int>, k: int, m: int) returns (ks: seq<int>)
    requires (forall x :: x in b ==> Word(x)) && k in b && m in b
    ensures k !in ks && m !in ks && Unrepeated(ks) && Changed(Second(k, m, ks)) == b && Fits32(Second(k, m, ks))
  {
    ks := Listed(b - {k, m});
    SecondChanges(k, m, ks);
    SecondFits(k, m, ks);
    forall x ensures x in Changed(Second(k, m, ks)) <==> x in b { assert x in ks <==> x in b - {k, m}; }
  }

  predicate AllYes(es: seq<Entry>) { forall i :: 0 <= i < |es| ==> es[i].yes }

  /** Two sets of changed keys with a common one, and another key in the second set: there are logs of one run, every
      answer right, that the checker rejects. */
  lemma Misjudged(a: set<int>, b: set<int>, k: int, m: int) returns (es1: seq<Entry>, es2: seq<Entry>)
    requires (forall x :: x in a ==> Word(x)) && (forall x :: x in b ==> Word(x)) && k in a && k in b && m in b
    requires m != k
    ensures Fits32(es1) && Fits32(es2) && Changed(es1) == a && Changed(es2) == b
    ensures Judge(Tokens(es1), Tokens(es2), NOTHING) == Inconsistent && Happened(es1, es2)
    ensures AllYes(es1) && AllYes(es2)
  {
    var ks1 := FirstLog(a, k, m);
    var ks2 := SecondLog(b, k, m);
    es1, es2 := First(k, m, ks1), Second(k, m, ks2);
    Rejected(k, m, ks1, ks2);
    SaysJudge(es1, es2, NOTHING);
    ThisHappened(k, m, ks1, ks2);
  }

  lemma ThisHappened(k: int, m: int, ks1: seq<int>, ks2: seq<int>)
    requires k != m && m !in ks2 && Unrepeated(ks2)
    ensures Happened(First(k, m, ks1), Second(k, m, ks2))
  {
    var es1, es2 := First(k, m, ks1), Second(k, m, ks2);
    Explained(k, m, ks1, ks2);
    SecondAdds(k, m, ks2);
    var order, s := AddedLast(es1, es2, Order(|ks1|), Progress(|es1|, 3, {m}));
  }

  /** Logs of one run have an order that explains the first. */
  lemma HappenedExplained(es1: seq<Entry>, es2: seq<Entry>)
    requires Fits32(es1) && Fits32(es2) && Happened(es1, es2)
    ensures exists order :: Explains(Tokens(es1), Tokens(es2), order)
  {
    var order, s :| History(es1, es2, order) == Some(Progress(|es1|, |es2|, s));
    HistoryMerges(es1, es2, order);
    ExplainedTokens(es1, es2, order);
  }

  lemma ExplainedTokens(es1: seq<Entry>, es2: seq<Entry>, order: seq<bool>)
    requires Fits32(es1) && Fits32(es2)
    ensures Explains(Tokens(es1), Tokens(es2), order) <==>
      Merge(es1, es2, order).Some? && Merge(es1, es2, order).value.i == |es1|
  {
    MergeIsReplay(es1, es2, order);
    if Merge(es1, es2, order).Some? {
      ReadTokens(es1, Merge(es1, es2, order).value.i, false);
    }
  }

  /** Logs that change different keys, or a second log that changes one key at most: the verdict is exact. */
  lemma Judged(es1: seq<Entry>, es2: seq<Entry>)
    requires Fits32(es1) && Fits32(es2) && (Changed(es1) !! Changed(es2) || |Changed(es2)| <= 1)
    ensures Exact(es1, es2)
  {
    SaysJudge(es1, es2, NOTHING);
    if Says(es1, es2, NOTHING) {
      var order := Reached(es1, es2, [], NOTHING);
      ExplainedTokens(es1, es2, order);
    } else if order :| Explains(Tokens(es1), Tokens(es2), order) {
      ExplainedTokens(es1, es2, order);
      NothingMissed(es1, es2, order);
    }
  }

  /** The order that the checker builds. */
  lemma {:induction false} Reached(es1: seq<Entry>, es2: seq<Entry>, order: seq<bool>, p: Progress)
    returns (order': seq<bool>)
    requires Within(es1, es2, p) && Says(es1, es2, p) && Merge(es1, es2, order) == Some(p)
    ensures Merge(es1, es2, order').Some? && Merge(es1, es2, order').value.i == |es1|
    decreases |es1| - p.i, |es2| - p.j
  {
    order' := order;
    if p.i < |es1| {
      var first := MergeFirst(es1, p).Some?;
      assert (order + [first])[..|order|] == order;
      order' := Reached(es1, es2, order + [first], if first then MergeFirst(es1, p).value
        else MergeSecond(es2, p).value);
    }
  }

  /** The two logs are well formed and change just the keys in `a` and in `b`. */
  ghost predicate Over(es1: seq<Entry>, es2: seq<Entry>, a: set<int>, b: set<int>) {
    Fits32(es1) && Fits32(es2) && Changed(es1) == a && Changed(es2) == b
  }

  lemma Rejects(a: set<int>, b: set<int>) returns (es1: seq<Entry>, es2: seq<Entry>)
    requires (forall x :: x in a ==> Word(x)) && (forall x :: x in b ==> Word(x)) && a * b != {} && |b| > 1
    ensures Over(es1, es2, a, b) && Happened(es1, es2) && Judge(Tokens(es1), Tokens(es2), NOTHING) == Inconsistent
    ensures AllYes(es1) && AllYes(es2)
  {
    NonEmpty(a * b);
    var k :| k in a * b;
    var rest := b - {k};
    assert |rest| > 0;
    NonEmpty(rest);
    var m :| m in rest;
    es1, es2 := Misjudged(a, b, k, m);
  }

  lemma Accepts(a: set<int>, b: set<int>, es1: seq<Entry>, es2: seq<Entry>)
    requires (a * b == {} || |b| <= 1) && Over(es1, es2, a, b)
    ensures Exact(es1, es2)
  {
    assert a * b == {} ==> a !! b by {
      if x :| x in a && x in b { assert x in a * b; }
    }
    Judged(es1, es2);
  }

  /** For which sets of changed keys the verdict is exact on all logs that change just those keys: those that are
      disjoint, and those whose second set has at most one key. */
  lemma ExactVerdicts(a: set<int>, b: set<int>)
    requires (forall x :: x in a ==> Word(x)) && (forall x :: x in b ==> Word(x))
    ensures (forall es1, es2 :: Over(es1, es2, a, b) ==> Exact(es1, es2)) <==> a * b == {} || |b| <= 1
  {
    if a * b == {} || |b| <= 1 {
      forall es1, es2 | Over(es1, es2, a, b) ensures Exact(es1, es2) {
        Accepts(a, b, es1, es2);
      }
    } else {
      var es1, es2 := Rejects(a, b);
      HappenedExplained(es1, es2);
      assert !Exact(es1, es2);
    }
  }

  /** The same condition decides whether the checker accepts every pair of logs that a run of a set can write. */
  lemma RunsAccepted(a: set<int>, b: set<int>)
    requires (forall x :: x in a ==> Word(x)) && (forall x :: x in b ==> Word(x))
    ensures (forall es1, es2 :: Over(es1, es2, a, b) && Happened(es1, es2) ==>
               Judge(Tokens(es1), Tokens(es2), NOTHING) == Consistent)
      <==> a * b == {} || |b| <= 1
  {
    if a * b == {} || |b| <= 1 {
      forall es1, es2 | Over(es1, es2, a, b) && Happened(es1, es2)
        ensures Judge(Tokens(es1), Tokens(es2), NOTHING) == Consistent
      {
        Accepts(a, b, es1, es2);
        HappenedExplained(es1, es2);
      }
    } else {
      var es1, es2 := Rejects(a, b);
    }
  }
}
