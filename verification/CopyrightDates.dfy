/**
 The year lists of SMC_original/GEM5/gem5/util/find_copyrights.py: `datestr` prints a set of years as
 comma-separated runs, `process_dates` reads such a list.
 */
module CopyrightDates {
  import opened Options
  import opened Decimal
  import opened YearLists

  // ---------------------------------------------------------------- reading

  /** Lines 106-107. */
  method AddRange(output: set<int>, f: int, l: int) returns (output': set<int>)
    ensures output' == output + Years(f, l)
  {
    output' := output;
    var i := f;
    while i < l + 1
      invariant f <= i && (f <= l ==> i <= l + 1) && (f > l ==> i == f) && output' == output + Years(f, i - 1)
      decreases l + 1 - i
    {
      output' := output' + {i};
      i := i + 1;
    }
    assert Years(f, i - 1) == Years(f, l);
  }

  /** Lines 99-116. The years that the text mentions, and no others. */
  method ProcessDates(text: string) returns (output: set<int>)
    ensures output == AllYears(Split(text)) && forall y :: y in output <==> Mentions(text, y)
  {
    var pieces := Split(text);
    output := {};
    for k := 0 to |pieces|
      invariant output == AllYears(pieces[..k])
    {
      assert pieces[..k + 1][..k] == pieces[..k];
      var date := Strip(pieces[k]);
      var range := MatchRange(date);
      if range.Some? {
        output := AddRange(output, range.value.0, range.value.1);
      } else {
        var n := ToInt(date);
        if n.Some? {
          output := output + {n.value};
        }
      }
    }
    assert pieces[..|pieces|] == pieces;
    forall y ensures y in output <==> Mentions(text, y) { YearsMentioned(text, y); }
  }

  // ---------------------------------------------------------------- printing

  datatype Run = Run(first: int, second: int)

  /** Lines 180-184. */
  function Text(r: Run): string {
    if r.first == r.second then Show(r.first) else Show(r.first) + "-" + Show(r.second)
  }

  function Texts(runs: seq<Run>): seq<string> { seq(|runs|, i requires 0 <= i < |runs| => Text(runs[i])) }

  /** The runs of consecutive years in a sorted list. */
  function Runs(s: seq<int>): seq<Run> {
    if s == [] then [] else
    var before, next := Runs(s[..|s| - 1]), s[|s| - 1];
    if before != [] && next == before[|before| - 1].second + 1
    then before[..|before| - 1] + [before[|before| - 1].(second := next)]
    else before + [Run(next, next)]
  }

  ghost predicate Sorted(s: seq<int>) { forall i, j :: 0 <= i < j < |s| ==> s[i] < s[j] }

  ghost predicate Lists(s: seq<int>, dates: set<int>) { Sorted(s) && forall y :: y in s <==> y in dates }

  /** `list(dates)` and `sort()`. */
  method SortDates(dates: set<int>) returns (s: seq<int>)
    ensures Lists(s, dates)
  {
    s := [];
    var rest := dates;
    while rest != {}
      invariant rest <= dates && Sorted(s) && (forall y :: y in dates <==> y in s || y in rest)
      invariant forall y, i :: y in rest && 0 <= i < |s| ==> s[i] < y
      decreases |rest|
    {
      var least := Least(rest);
      s := s + [least];
      rest := rest - {least};
    }
  }

  lemma ListsEmpty(s: seq<int>, dates: set<int>)
    requires Lists(s, dates)
    ensures s == [] <==> dates == {}
  {
    NonEmpty(dates);
    if s != [] {
      assert s[0] in s;
      assert s[0] in dates;
    }
  }

  lemma NonEmpty(dates: set<int>)
    ensures dates == {} || exists y :: y in dates
  {
    if forall y :: y !in dates {
      assert dates == {};
    }
  }

  method Least(dates: set<int>) returns (m: int)
    requires dates != {}
    ensures m in dates && forall y :: y in dates ==> m <= y
  {
    NonEmpty(dates);
    m :| m in dates;
    var rest := dates - {m};
    while rest != {}
      invariant m in dates && rest <= dates && forall y :: y in dates ==> y in rest || m <= y
      decreases |rest|
    {
      NonEmpty(rest);
      var y :| y in rest;
      if y < m {
        m := y;
      }
      rest := rest - {y};
    }
  }

  lemma TextsSnoc(runs: seq<Run>, r: Run)
    ensures Texts(runs + [r]) == Texts(runs) + [Text(r)]
  {
  }

  /** One more year extends the last run, or starts one. */
  lemma RunsMore(s: seq<int>, k: nat, runs: seq<Run>, r: Run)
    requires 0 < k < |s| && Runs(s[..k]) == runs + [r]
    ensures Runs(s[..k + 1]) == if s[k] == r.second + 1 then runs + [r.(second := s[k])]
      else runs + [r] + [Run(s[k], s[k])]
  {
    assert s[..k + 1][..k] == s[..k];
    assert (runs + [r])[..|runs|] == runs;
  }

  lemma RunsOne(s: seq<int>)
    requires s != []
    ensures Runs(s[..1]) == [] + [Run(s[0], s[0])]
  {
    assert s[..1][..0] == [];
  }

  /** Lines 186-197: the runs of a sorted, non-empty list. */
  method PrintRuns(dates: seq<int>) returns (output: seq<string>)
    requires dates != []
    ensures output == Texts(Runs(dates))
  {
    output := [];
    var first := dates[0];
    var left := dates[1..];
    var second := first;
    ghost var runs, k := [], 1;
    RunsOne(dates);
    while left != []
      invariant 1 <= k <= |dates| && left == dates[k..]
      invariant Runs(dates[..k]) == runs + [Run(first, second)] && output == Texts(runs)
      decreases |left|
    {
      RunsMore(dates, k, runs, Run(first, second));
      var next := left[0];
      left := left[1..];
      if next == second + 1 {
        second := next;
      } else {
        TextsSnoc(runs, Run(first, second));
        output := output + [Text(Run(first, second))];
        runs := runs + [Run(first, second)];
        first := next;
        second := next;
      }
      k := k + 1;
    }
    assert dates[..k] == dates;
    TextsSnoc(runs, Run(first, second));
    output := output + [Text(Run(first, second))];
  }

  /** Lines 175-199; `None` is the IndexError for an empty set. */
  method DateStr(dates: set<int>) returns (r: Option<string>, ghost s: seq<int>)
    ensures Lists(s, dates) && (r.None? <==> dates == {}) && (r.Some? ==> r.value == Join(Texts(Runs(s))))
  {
    var sorted := SortDates(dates);
    s := sorted;
    ListsEmpty(s, dates);
    if sorted == [] {
      return None, s;
    }
    var output := PrintRuns(sorted);
    return Some(Join(output)), s;
  }

  // ---------------------------------------------------------------- the runs

  /** The runs are in increasing order with a gap between any two, so each is as long as it can be. */
  ghost predicate Separate(runs: seq<Run>) {
    && (forall i :: 0 <= i < |runs| ==> runs[i].first <= runs[i].second)
    && (forall i, j :: 0 <= i < j < |runs| ==> runs[i].second + 1 < runs[j].first)
  }

  ghost predicate InRuns(runs: seq<Run>, y: int) { exists i :: 0 <= i < |runs| && runs[i].first <= y <= runs[i].second }

  /** The runs are maximal, disjoint and increasing, and cover exactly the years of the list. */
  lemma {:induction false} RunsCover(s: seq<int>)
    requires Sorted(s)
    ensures Separate(Runs(s)) && (s != [] ==> Runs(s) != [] && Runs(s)[|Runs(s)| - 1].second == s[|s| - 1])
    ensures forall y :: InRuns(Runs(s), y) <==> y in s
  {
    if s != [] {
      var n := |s| - 1;
      RunsCover(s[..n]);
      CoverMore(s, n, Runs(s[..n]), Runs(s));
    }
  }

  lemma CoverMore(s: seq<int>, n: nat, b: seq<Run>, r: seq<Run>)
    requires Sorted(s) && |s| == n + 1 && Separate(b) && (forall y :: InRuns(b, y) <==> y in s[..n])
    requires n > 0 ==> b != [] && b[|b| - 1].second == s[n - 1]
    requires r == if b != [] && s[n] == b[|b| - 1].second + 1 then b[..|b| - 1] + [b[|b| - 1].(second := s[n])]
                  else b + [Run(s[n], s[n])]
    ensures Separate(r) && r != [] && r[|r| - 1].second == s[n] && forall y :: InRuns(r, y) <==> y in s
  {
    LastIn(s, n);
    if b != [] && s[n] == b[|b| - 1].second + 1 {
      Extended(b, s[n]);
    } else {
      if b != [] { LastRun(s, n, b); }
      Added(b, s[n]);
    }
  }

  lemma LastRun(s: seq<int>, n: nat, b: seq<Run>)
    requires Sorted(s) && |s| == n + 1 && Separate(b) && b != [] && (forall y :: InRuns(b, y) <==> y in s[..n])
    ensures b[|b| - 1].second < s[n]
  {
    var y := b[|b| - 1].second;
    assert b[|b| - 1].first <= y <= b[|b| - 1].second;
    assert InRuns(b, y) && y in s[..n];
  }

  lemma LastIn(s: seq<int>, n: nat)
    requires |s| == n + 1
    ensures forall y :: y in s <==> y in s[..n] || y == s[n]
  {
    assert s == s[..n] + [s[n]];
  }

  lemma Extended(b: seq<Run>, x: int)
    requires Separate(b) && b != [] && x == b[|b| - 1].second + 1
    ensures var r := b[..|b| - 1] + [b[|b| - 1].(second := x)];
      Separate(r) && forall y :: InRuns(r, y) <==> InRuns(b, y) || y == x
  {
    var n := |b| - 1;
    var r := b[..n] + [b[n].(second := x)];
    forall y ensures InRuns(r, y) <==> InRuns(b, y) || y == x {
      if InRuns(b, y) {
        var i :| 0 <= i < |b| && b[i].first <= y <= b[i].second;
        assert r[i].first <= y <= r[i].second;
      }
      if y == x { assert r[n].first <= y <= r[n].second; }
      if InRuns(r, y) {
        var i :| 0 <= i < |r| && r[i].first <= y <= r[i].second;
        assert y == x || b[i].first <= y <= b[i].second;
      }
    }
  }

  lemma Added(b: seq<Run>, x: int)
    requires Separate(b) && (b != [] ==> b[|b| - 1].second < x - 1)
    ensures var r := b + [Run(x, x)]; Separate(r) && forall y :: InRuns(r, y) <==> InRuns(b, y) || y == x
  {
    var r := b + [Run(x, x)];
    forall i | 0 <= i < |b| ensures b[i].second + 1 < x {
      if i < |b| - 1 { assert b[i].second + 1 < b[|b| - 1].first <= b[|b| - 1].second; }
    }
    forall y ensures InRuns(r, y) <==> InRuns(b, y) || y == x {
      if InRuns(b, y) {
        var i :| 0 <= i < |b| && b[i].first <= y <= b[i].second;
        assert r[i].first <= y <= r[i].second;
      }
      if y == x { assert r[|b|].first <= y <= r[|b|].second; }
      if InRuns(r, y) {
        var i :| 0 <= i < |r| && r[i].first <= y <= r[i].second;
        assert i == |b| || b[i].first <= y <= b[i].second;
      }
    }
  }

  // ---------------------------------------------------------------- reading what was printed

  /** Digits and hyphens only. */
  predicate Plain(s: string) { forall i :: 0 <= i < |s| ==> IsDigit(s[i]) || s[i] == '-' }

  lemma ShowPlain(x: int)
    ensures Plain(Show(x)) && |Show(x)| >= 1
  {
    ShowDigits(if x < 0 then -x else x);
  }

  lemma PlainText(r: Run)
    ensures Plain(Text(r)) && Strip(Text(r)) == Text(r) && ',' !in Text(r)
  {
    ShowPlain(r.first);
    ShowPlain(r.second);
  }

  lemma FirstFour(s: string)
    ensures FourDigits(s) ==> forall i :: 0 <= i < 4 ==> IsDigit(s[i])
  {
    if FourDigits(s) {
      forall i | 0 <= i < 4 ensures IsDigit(s[i]) { assert s[..4][i] == s[i]; }
    }
  }

  /** A single year is not taken for a range, and is read back whatever its size and sign. */
  lemma SingleRead(x: int)
    ensures PieceYears(Show(x)) == {x}
  {
    var s := Show(x);
    PlainText(Run(x, x));
    if x < 0 {
      ShowDigits(-x);
      EvalShow(-x);
      assert s[0] == '-' && s[1..] == ShowNat(-x);
      FirstFour(s);
    } else {
      ShowDigits(x);
      EvalShow(x);
      if FourDigits(s) && s[4..] != "" {
        assert IsDigit(s[4..][0]);
      }
    }
  }

  lemma DashText(f: int, l: int)
    ensures var s, k := Show(f) + "-" + Show(l), |Show(f)|;
      k >= 1 && s[k] == '-' && s[..k] == Show(f) && s[k + 1..] == Show(l)
  {
    ShowPlain(f);
  }

  lemma FourShown(y: int)
    requires 1000 <= y <= 9999
    ensures |Show(y)| == 4 && Show(y)[..4] == Show(y) && FourDigits(Show(y)) && Eval(Show(y)) == y
  {
    ShowDigits(y);
    EvalShow(y);
  }

  lemma RangeMatched(f: int, l: int)
    requires 1000 <= f <= 9999 && 1000 <= l <= 9999
    ensures MatchRange(Show(f) + "-" + Show(l)) == Some((f, l))
  {
    var s := Show(f) + "-" + Show(l);
    FourShown(f);
    FourShown(l);
    assert s[..4] == Show(f) && s[4..][0] == '-' && s[4..][1..] == Show(l);
  }

  /** A range of four-digit years is read back. */
  lemma RangeRead(f: int, l: int)
    requires 1000 <= f < l <= 9999
    ensures PieceYears(Text(Run(f, l))) == Years(f, l)
  {
    PlainText(Run(f, l));
    RangeMatched(f, l);
  }

  /** Unless the first year has four digits, nothing is read: neither a range nor a number. */
  lemma FirstLost(f: int, l: int)
    requires f < l && !(1000 <= f <= 9999)
    ensures PieceYears(Text(Run(f, l))) == {}
  {
    var s, k := Text(Run(f, l)), |Show(f)|;
    PlainText(Run(f, l));
    DashText(f, l);
    ShowDigits(if f < 0 then -f else f);
    assert !IsDigit(s[k]);
    FirstFour(s);
    if FourDigits(s) {
      assert k > 4 && f >= 0;
      assert s[4..][0] == Show(f)[4] && IsDigit(s[4..][0]);
    }
    if s[0] == '-' { assert !IsDigit(s[1..][k - 1]); }
  }

  /** A longer second year is cut to its first four digits, so the last years of the run are lost. */
  lemma SecondLost(f: int, l: int, y: int)
    requires 1000 <= f <= 9999 < l && y in PieceYears(Text(Run(f, l)))
    ensures f <= y <= 9999
  {
    var s := Text(Run(f, l));
    PlainText(Run(f, l));
    DashText(f, l);
    ShowDigits(f);
    ShowDigits(l);
    EvalShow(f);
    assert s[4..][0] == '-' && s[4..][1..] == Show(l);
    EvalBound(Show(l)[..4]);
    assert Pow10(4) == 10000 by { assert Pow10(2) == 100; }
    YearsHas(f, Eval(Show(l)[..4]), y);
  }

  /** What `process_dates` can read back of a run: single years, and ranges of four-digit years. */
  predicate Readable(r: Run) { r.first == r.second || (1000 <= r.first && r.second <= 9999) }

  /** A run never yields a year that is not its own; it yields all of them exactly when it is readable. */
  lemma RunRead(r: Run)
    requires r.first <= r.second
    ensures forall y :: y in PieceYears(Text(r)) ==> r.first <= y <= r.second
    ensures Readable(r) ==> forall y :: r.first <= y <= r.second ==> y in PieceYears(Text(r))
    ensures !Readable(r) ==> r.second !in PieceYears(Text(r))
  {
    if r.first == r.second {
      SingleRead(r.first);
    } else if Readable(r) {
      RangeRead(r.first, r.second);
      forall y ensures y in Years(r.first, r.second) <==> r.first <= y <= r.second { YearsHas(r.first, r.second, y); }
    } else if 1000 <= r.first <= 9999 {
      forall y | y in PieceYears(Text(r)) ensures r.first <= y <= 9999 { SecondLost(r.first, r.second, y); }
    } else {
      FirstLost(r.first, r.second);
    }
  }

  // ---------------------------------------------------------------- the round trip

  /** What is read back of a printed list of runs. */
  lemma ReadRuns(runs: seq<Run>, y: int)
    requires Separate(runs)
    ensures y in AllYears(Texts(runs)) ==> InRuns(runs, y)
    ensures (forall i :: 0 <= i < |runs| ==> Readable(runs[i])) && InRuns(runs, y) ==> y in AllYears(Texts(runs))
  {
    AllYearsHas(Texts(runs), y);
    if y in AllYears(Texts(runs)) {
      var i :| 0 <= i < |runs| && y in PieceYears(Texts(runs)[i]);
      RunRead(runs[i]);
    }
    if (forall i :: 0 <= i < |runs| ==> Readable(runs[i])) && InRuns(runs, y) {
      var i :| 0 <= i < |runs| && runs[i].first <= y <= runs[i].second;
      RunRead(runs[i]);
      assert y in PieceYears(Texts(runs)[i]);
    }
  }

  lemma LostAt(runs: seq<Run>, k: nat, i: nat)
    requires Separate(runs) && k < |runs| && !Readable(runs[k]) && i < |runs|
    ensures runs[k].second !in PieceYears(Text(runs[i]))
  {
    RunRead(runs[i]);
    assert i < k ==> runs[i].second + 1 < runs[k].first;
    assert k < i ==> runs[k].second + 1 < runs[i].first;
  }

  /** The last year of an unreadable run is not read back from anywhere. */
  lemma LastLost(runs: seq<Run>, k: nat)
    requires Separate(runs) && k < |runs| && !Readable(runs[k])
    ensures runs[k].second !in AllYears(Texts(runs)) && InRuns(runs, runs[k].second)
  {
    var y := runs[k].second;
    AllYearsHas(Texts(runs), y);
    forall i | 0 <= i < |runs| ensures y !in PieceYears(Texts(runs)[i]) {
      LostAt(runs, k, i);
    }
  }

  /** `process_dates(datestr(S)) == S` exactly when every run of two or more years consists of four-digit years. */
  lemma RoundTrip(s: seq<int>, dates: set<int>)
    requires Lists(s, dates) && dates != {}
    ensures AllYears(Split(Join(Texts(Runs(s))))) == dates <==> forall i :: 0 <= i < |Runs(s)| ==> Readable(Runs(s)[i])
  {
    var runs := Runs(s);
    ListsEmpty(s, dates);
    RunsCover(s);
    forall i | 0 <= i < |runs| ensures ',' !in Texts(runs)[i] { PlainText(runs[i]); }
    SplitJoin(Texts(runs));
    if forall i :: 0 <= i < |runs| ==> Readable(runs[i]) {
      forall y ensures y in AllYears(Texts(runs)) <==> y in dates { ReadRuns(runs, y); }
    } else {
      var k :| 0 <= k < |runs| && !Readable(runs[k]);
      LastLost(runs, k);
      assert runs[k].second in s;
    }
  }

  /** In particular for every non-empty set of four-digit years. */
  lemma FourDigitYears(s: seq<int>, dates: set<int>)
    requires Lists(s, dates) && dates != {} && forall y :: y in dates ==> 1000 <= y <= 9999
    ensures AllYears(Split(Join(Texts(Runs(s))))) == dates
  {
    RoundTrip(s, dates);
    RunsCover(s);
    var runs := Runs(s);
    forall i | 0 <= i < |runs| ensures Readable(runs[i]) {
      assert InRuns(runs, runs[i].first) && InRuns(runs, runs[i].second);
      assert runs[i].first in s && runs[i].second in s;
    }
  }
}
