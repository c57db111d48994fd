/**
 Lists of years as they stand in copyright lines, SMC_original/GEM5/gem5/util/find_copyrights.py: what such a text says,
 as a grammar, and how `process_dates` takes it apart.
 */
module YearLists {
  import opened Options
  import opened Decimal

  // ---------------------------------------------------------------- taking a text apart

  predicate IsSpace(c: char) { c == ' ' || c == '\t' || c == '\n' || c == '\r' || c == 11 as char || c == 12 as char }

  function SkipSpace(s: string): string { if s != "" && IsSpace(s[0]) then SkipSpace(s[1..]) else s }

  function DropSpace(s: string): string { if s != "" && IsSpace(s[|s| - 1]) then DropSpace(s[..|s| - 1]) else s }

  function Strip(s: string): string { DropSpace(SkipSpace(s)) }

  predicate FourDigits(s: string) { |s| >= 4 && AllDigits(s[..4]) }

  /** The pattern `[0-9]{4}\s*-\s*[0-9]{4}` at the start of the string; what follows is ignored. */
  function MatchRange(s: string): Option<(int, int)> {
    if !FourDigits(s) then None else
    var r := SkipSpace(s[4..]);
    if r == "" || r[0] != '-' then None else
    var q := SkipSpace(r[1..]);
    if FourDigits(q) then Some((Eval(s[..4]), Eval(q[..4]))) else None
  }

  /** `int(s)` on a stripped string; `None` is the ValueError. */
  function ToInt(s: string): Option<int> {
    var digits := if s != "" && (s[0] == '-' || s[0] == '+') then s[1..] else s;
    if digits == "" || !AllDigits(digits) then None
    else if s[0] == '-' then Some(-Eval(digits)) else Some(Eval(digits))
  }

  function Years(first: int, last: int): set<int>
    decreases last - first
  {
    if first > last then {} else Years(first, last - 1) + {last}
  }

  lemma {:induction false} YearsHas(first: int, last: int, y: int)
    ensures y in Years(first, last) <==> first <= y <= last
    decreases last - first
  {
    if first <= last {
      YearsHas(first, last - 1, y);
    }
  }

  /** The years of one piece. */
  function PieceYears(piece: string): set<int> {
    var s := Strip(piece);
    match MatchRange(s)
    case Some((f, l)) => Years(f, l)
    case None => match ToInt(s) case Some(n) => {n} case None => {}
  }

  function AllYears(pieces: seq<string>): set<int> {
    if pieces == [] then {} else AllYears(pieces[..|pieces| - 1]) + PieceYears(pieces[|pieces| - 1])
  }

  /** `s.split(',')`. */
  function Split(s: string): (r: seq<string>)
    ensures |r| > 0
  {
    if s == "" then [""] else
    var rest := Split(s[1..]);
    if s[0] == ',' then [""] + rest else [[s[0]] + rest[0]] + rest[1..]
  }

  /** `','.join(texts)` */
  function Join(texts: seq<string>): string {
    if texts == [] then "" else if |texts| == 1 then texts[0] else texts[0] + "," + Join(texts[1..])
  }

  // ---------------------------------------------------------------- what a text says

  /** Blank, tab, line feed, carriage return, vertical tab and form feed. */
  const BLANKS: set<char> := {' ', '\t', '\n', '\r', 11 as char, 12 as char}

  predicate White(s: string) { forall i :: 0 <= i < |s| ==> s[i] in BLANKS }

  predicate Year(x: string) { |x| == 4 && AllDigits(x) }

  /** The piece begins with a range from `x` to `z`: white space may stand before and around the hyphen, and anything
      behind. */
  ghost predicate RangeWith(p: string, x: string, z: string, a: string, b: string, c: string, rest: string) {
    Year(x) && Year(z) && White(a) && White(b) && White(c) && p == a + x + b + "-" + c + z + rest
  }

  ghost predicate IsRange(p: string, x: string, z: string) {
    exists a, b, c, rest :: RangeWith(p, x, z, a, b, c, rest)
  }

  /** The piece is a number, with or without a sign, between white space. */
  ghost predicate NumberWith(p: string, sign: string, digits: string, a: string, b: string) {
    && (sign == "" || sign == "+" || sign == "-") && digits != "" && AllDigits(digits)
    && White(a) && White(b) && p == a + sign + digits + b
  }

  ghost predicate IsNumber(p: string, sign: string, digits: string) {
    exists a, b :: NumberWith(p, sign, digits, a, b)
  }

  function Signed(sign: string, digits: string): int { if sign == "-" then -Eval(digits) else Eval(digits) }

  ghost predicate HasRange(p: string) { exists x, z :: IsRange(p, x, z) }

  /** The piece stands for the year `y`: in its range, if it has one, or as its number; any other piece stands for
      nothing. */
  ghost predicate Denotes(p: string, y: int) {
    if HasRange(p) then exists x, z :: IsRange(p, x, z) && Eval(x) <= y <= Eval(z)
    else exists sign, digits :: IsNumber(p, sign, digits) && Signed(sign, digits) == y
  }

  /** The pieces between the commas of the text. */
  ghost predicate Pieces(text: string, pieces: seq<string>) {
    pieces != [] && Join(pieces) == text && forall i :: 0 <= i < |pieces| ==> ',' !in pieces[i]
  }

  /** Some piece of the text stands for the year `y`. */
  ghost predicate Mentions(text: string, y: int) {
    exists pieces :: Pieces(text, pieces) && exists i :: 0 <= i < |pieces| && Denotes(pieces[i], y)
  }

  // ---------------------------------------------------------------- white space

  lemma {:induction false} SkipWhite(a: string, t: string)
    requires White(a) && (t == "" || !IsSpace(t[0]))
    ensures SkipSpace(a + t) == t
  {
    if a == "" {
      assert a + t == t;
    } else {
      assert (a + t)[1..] == a[1..] + t;
      SkipWhite(a[1..], t);
    }
  }

  lemma {:induction false} SkipIs(s: string) returns (a: string)
    ensures White(a) && s == a + SkipSpace(s) && (SkipSpace(s) == "" || !IsSpace(SkipSpace(s)[0]))
  {
    a := "";
    if s != "" && IsSpace(s[0]) {
      var a' := SkipIs(s[1..]);
      a := [s[0]] + a';
    }
  }

  lemma {:induction false} DropIs(s: string) returns (b: string)
    ensures White(b) && s == DropSpace(s) + b && (DropSpace(s) == "" || !IsSpace(DropSpace(s)[|DropSpace(s)| - 1]))
  {
    b := "";
    if s != "" && IsSpace(s[|s| - 1]) {
      var b' := DropIs(s[..|s| - 1]);
      b := b' + [s[|s| - 1]];
    }
  }

  lemma {:induction false} DropWhite(t: string, b: string)
    requires White(b) && (t == "" || !IsSpace(t[|t| - 1]))
    ensures DropSpace(t + b) == t
  {
    if b == "" {
      assert t + b == t;
    } else {
      var n := |b| - 1;
      assert (t + b)[..|t + b| - 1] == t + b[..n];
      DropWhite(t, b[..n]);
    }
  }

  /** What ends in something else than white space is not cut. */
  lemma {:induction false} DropKeeps(t: string, rest: string) returns (rest': string)
    requires t != "" && !IsSpace(t[|t| - 1])
    ensures DropSpace(t + rest) == t + rest'
  {
    if rest == "" || !IsSpace(rest[|rest| - 1]) {
      rest' := rest;
    } else {
      var n := |rest| - 1;
      assert (t + rest)[..|t + rest| - 1] == t + rest[..n];
      rest' := DropKeeps(t, rest[..n]);
    }
  }

  /** Stripping takes away white space only, and all of it, at both ends. */
  lemma StripIs(p: string) returns (a: string, b: string)
    ensures White(a) && White(b) && p == a + Strip(p) + b
    ensures Strip(p) != "" ==> !IsSpace(Strip(p)[0]) && !IsSpace(Strip(p)[|Strip(p)| - 1])
  {
    var t := SkipSpace(p);
    a := SkipIs(p);
    b := DropIs(t);
    assert a + (DropSpace(t) + b) == a + DropSpace(t) + b;
    if DropSpace(t) != "" { assert DropSpace(t)[0] == t[0]; }
  }

  // ---------------------------------------------------------------- ranges

  lemma DigitsAt(x: string, y: string)
    requires Year(x)
    ensures FourDigits(x + y) && (x + y)[..4] == x && (x + y)[4..] == y && !IsSpace((x + y)[0])
  {
    assert (x + y)[..4] == x && (x + y)[0] == x[0];
  }

  lemma RangeStripped(p: string, x: string, z: string, a: string, b: string, c: string, rest: string)
    requires RangeWith(p, x, z, a, b, c, rest)
    ensures var front := x + b + "-" + c + z; SkipSpace(p) == front + rest && !IsSpace(front[|front| - 1])
  {
    var front := x + b + "-" + c + z;
    assert p == a + (front + rest);
    assert front[0] == x[0] && front[|front| - 1] == z[3];
    SkipWhite(a, front + rest);
  }

  lemma Grouped(x: string, b: string, c: string, z: string, rest: string)
    ensures (x + b + "-" + c + z) + rest == x + (b + ("-" + (c + (z + rest))))
  {
  }

  lemma RangeFound(p: string, x: string, z: string, a: string, b: string, c: string, rest: string)
    requires RangeWith(p, x, z, a, b, c, rest)
    ensures MatchRange(Strip(p)) == Some((Eval(x), Eval(z)))
  {
    var front := x + b + "-" + c + z;
    RangeStripped(p, x, z, a, b, c, rest);
    var rest' := DropKeeps(front, rest);
    RangeAt(x, z, b, c, rest');
    Grouped(x, b, c, z, rest');
  }

  lemma RangeAt(x: string, z: string, b: string, c: string, rest: string)
    requires Year(x) && Year(z) && White(b) && White(c)
    ensures MatchRange(x + (b + ("-" + (c + (z + rest))))) == Some((Eval(x), Eval(z)))
  {
    var q := z + rest;
    var r := "-" + (c + q);
    DigitsAt(x, b + r);
    SkipWhite(b, r);
    assert r[1..] == c + q;
    DigitsAt(z, rest);
    SkipWhite(c, q);
  }

  lemma Taken(s: string, k: nat)
    requires k <= |s|
    ensures s == s[..k] + s[k..]
  {
  }

  lemma MatchedIs(s: string) returns (x: string, z: string, b: string, c: string, rest: string)
    requires MatchRange(s).Some?
    ensures Year(x) && Year(z) && White(b) && White(c) && s == x + (b + ("-" + (c + (z + rest))))
    ensures MatchRange(s) == Some((Eval(x), Eval(z)))
  {
    var r := SkipSpace(s[4..]);
    var q := SkipSpace(r[1..]);
    x, z, rest := s[..4], q[..4], q[4..];
    b := SkipIs(s[4..]);
    c := SkipIs(r[1..]);
    Taken(s, 4);
    Taken(r, 1);
    Taken(q, 4);
    assert r[..1] == "-";
  }

  lemma Regrouped(a: string, x: string, b: string, c: string, z: string, rest: string, e: string)
    ensures a + (x + (b + ("-" + (c + (z + rest))))) + e == a + x + b + "-" + c + z + (rest + e)
  {
  }

  lemma RangeMeans(p: string) returns (x: string, z: string)
    requires MatchRange(Strip(p)).Some?
    ensures IsRange(p, x, z) && MatchRange(Strip(p)) == Some((Eval(x), Eval(z)))
  {
    var a, e := StripIs(p);
    var b, c, rest;
    x, z, b, c, rest := MatchedIs(Strip(p));
    Regrouped(a, x, b, c, z, rest, e);
    assert RangeWith(p, x, z, a, b, c, rest + e);
  }

  /** A piece has at most one range. */
  lemma RangeUnique(p: string, x: string, z: string)
    requires IsRange(p, x, z)
    ensures MatchRange(Strip(p)) == Some((Eval(x), Eval(z)))
  {
    var a, b, c, rest :| RangeWith(p, x, z, a, b, c, rest);
    RangeFound(p, x, z, a, b, c, rest);
  }

  // ---------------------------------------------------------------- numbers

  lemma NumberStripped(p: string, sign: string, digits: string, a: string, b: string)
    requires NumberWith(p, sign, digits, a, b)
    ensures Strip(p) == sign + digits
  {
    var t := sign + digits;
    assert p == a + (t + b);
    assert (t + b)[0] == t[0] && t[|t| - 1] == digits[|digits| - 1];
    SkipWhite(a, t + b);
    DropWhite(t, b);
  }

  lemma ToIntSigned(sign: string, digits: string)
    requires (sign == "" || sign == "+" || sign == "-") && digits != "" && AllDigits(digits)
    ensures ToInt(sign + digits) == Some(Signed(sign, digits))
  {
    var t := sign + digits;
    if sign == "" { assert t == digits && IsDigit(t[0]); } else { assert t[0] == sign[0] && t[1..] == digits; }
  }

  lemma NumberFound(p: string, sign: string, digits: string)
    requires IsNumber(p, sign, digits)
    ensures ToInt(Strip(p)) == Some(Signed(sign, digits))
  {
    var a, b :| NumberWith(p, sign, digits, a, b);
    NumberStripped(p, sign, digits, a, b);
    ToIntSigned(sign, digits);
  }

  lemma ToIntIs(s: string) returns (sign: string, digits: string)
    requires ToInt(s).Some?
    ensures (sign == "" || sign == "+" || sign == "-") && digits != "" && AllDigits(digits) && s == sign + digits
    ensures ToInt(s) == Some(Signed(sign, digits))
  {
    if s[0] == '-' || s[0] == '+' {
      sign, digits := [s[0]], s[1..];
    } else {
      sign, digits := "", s;
    }
  }

  lemma NumberMeans(p: string) returns (sign: string, digits: string)
    requires ToInt(Strip(p)).Some?
    ensures IsNumber(p, sign, digits) && ToInt(Strip(p)) == Some(Signed(sign, digits))
  {
    var a, b := StripIs(p);
    sign, digits := ToIntIs(Strip(p));
    assert a + (sign + digits) + b == a + sign + digits + b;
    assert NumberWith(p, sign, digits, a, b);
  }

  // ---------------------------------------------------------------- pieces

  /** `PieceYears` yields exactly the years that the piece stands for. */
  lemma PieceDenotes(p: string, y: int)
    ensures y in PieceYears(p) <==> Denotes(p, y)
  {
    var s := Strip(p);
    if MatchRange(s).Some? {
      var x, z := RangeMeans(p);
      YearsHas(Eval(x), Eval(z), y);
      if x', z' :| IsRange(p, x', z') && Eval(x') <= y <= Eval(z') {
        RangeUnique(p, x', z');
      }
    } else {
      if x, z :| IsRange(p, x, z) { RangeUnique(p, x, z); }
      assert !HasRange(p);
      if ToInt(s).Some? { var sign, digits := NumberMeans(p); }
      if sign, digits :| IsNumber(p, sign, digits) && Signed(sign, digits) == y { NumberFound(p, sign, digits); }
    }
  }

  /** White space before and behind a range, and around its hyphen, changes nothing. */
  lemma SpacedRange(a: string, f: int, b: string, c: string, l: int, d: string, y: int)
    requires White(a) && White(b) && White(c) && White(d) && 1000 <= f <= 9999 && 1000 <= l <= 9999
    ensures Denotes(a + Show(f) + b + "-" + c + Show(l) + d, y) <==> f <= y <= l
  {
    var p, x, z := a + Show(f) + b + "-" + c + Show(l) + d, Show(f), Show(l);
    ShowDigits(f);
    ShowDigits(l);
    EvalShow(f);
    EvalShow(l);
    assert RangeWith(p, x, z, a, b, c, d);
    assert IsRange(p, x, z) && HasRange(p);
    RangeUnique(p, x, z);
    if x', z' :| IsRange(p, x', z') && Eval(x') <= y <= Eval(z') { RangeUnique(p, x', z'); }
  }

  lemma NumberShown(x: int) returns (sign: string, digits: string)
    ensures (sign == "" || sign == "-") && digits != "" && AllDigits(digits) && Show(x) == sign + digits
    ensures Signed(sign, digits) == x
  {
    var n := if x < 0 then -x else x;
    sign, digits := if x < 0 then "-" else "", ShowNat(n);
    ShowDigits(n);
    EvalShow(n);
  }

  /** White space before and behind a number changes nothing; a year of more than four digits is one number. */
  lemma SpacedNumber(a: string, x: int, b: string, y: int)
    requires White(a) && White(b)
    ensures Denotes(a + Show(x) + b, y) <==> y == x
  {
    var p := a + Show(x) + b;
    var sign, digits := NumberShown(x);
    assert a + (sign + digits) + b == a + sign + digits + b;
    assert NumberWith(p, sign, digits, a, b);
    NumberFound(p, sign, digits);
    NoRange(p, sign, digits, a, b);
    if s', d' :| IsNumber(p, s', d') && Signed(s', d') == y { NumberFound(p, s', d'); }
  }

  /** A number is not a range. */
  lemma NoRange(p: string, sign: string, digits: string, a: string, b: string)
    requires NumberWith(p, sign, digits, a, b)
    ensures !HasRange(p)
  {
    if x, z :| IsRange(p, x, z) {
      RangeUnique(p, x, z);
      NumberStripped(p, sign, digits, a, b);
      NotMatched(sign, digits);
    }
  }

  lemma NotMatched(sign: string, digits: string)
    requires (sign == "" || sign == "+" || sign == "-") && digits != "" && AllDigits(digits)
    ensures MatchRange(sign + digits) == None
  {
    var t := sign + digits;
    if sign == "" {
      assert t == digits;
      if |t| >= 4 {
        var r := t[4..];
        assert r == "" || (r[0] == t[4] && IsDigit(r[0]));
        assert SkipSpace(r) == r;
      }
    } else {
      assert t[0] == sign[0];
      if |t| >= 4 { assert t[..4][0] == t[0]; }
    }
  }

  // ---------------------------------------------------------------- the list of pieces

  lemma {:induction false} SplitFirst(t: string, rest: string)
    requires ',' !in t
    ensures Split(t + "," + rest) == [t] + Split(rest)
  {
    var s := t + "," + rest;
    if t == "" {
      assert s[1..] == rest;
    } else {
      SplitFirst(t[1..], rest);
      assert s[1..] == t[1..] + "," + rest;
      assert [t[0]] + t[1..] == t;
    }
  }

  lemma {:induction false} SplitOne(t: string)
    requires ',' !in t
    ensures Split(t) == [t]
  {
    if t != "" {
      SplitOne(t[1..]);
      assert [t[0]] + t[1..] == t;
    }
  }

  lemma {:induction false} SplitJoin(texts: seq<string>)
    requires texts != [] && forall i :: 0 <= i < |texts| ==> ',' !in texts[i]
    ensures Split(Join(texts)) == texts
  {
    if |texts| == 1 {
      SplitOne(texts[0]);
    } else {
      SplitJoin(texts[1..]);
      SplitFirst(texts[0], Join(texts[1..]));
    }
  }

  lemma {:induction false} AllYearsHas(pieces: seq<string>, y: int)
    ensures y in AllYears(pieces) <==> exists i :: 0 <= i < |pieces| && y in PieceYears(pieces[i])
  {
    if pieces != [] {
      var n := |pieces| - 1;
      var last := PieceYears(pieces[n]);
      AllYearsHas(pieces[..n], y);
      assert AllYears(pieces) == AllYears(pieces[..n]) + last;
      if y in last {
        assert y in PieceYears(pieces[n]);
      } else if y in AllYears(pieces[..n]) {
        var i :| 0 <= i < n && y in PieceYears(pieces[..n][i]);
        assert y in PieceYears(pieces[i]);
      } else {
        forall i | 0 <= i < n ensures y !in PieceYears(pieces[i]) { assert pieces[..n][i] == pieces[i]; }
      }
    }
  }

  lemma {:induction false} SplitIs(text: string)
    ensures Pieces(text, Split(text))
  {
    if text != "" {
      SplitIs(text[1..]);
      var rest := Split(text[1..]);
      if text[0] == ',' {
        assert ([""] + rest)[1..] == rest && text == "" + "," + text[1..];
      } else {
        var first := [text[0]] + rest[0];
        assert ([first] + rest[1..])[1..] == rest[1..];
        assert text == [text[0]] + text[1..];
        assert Join([first] + rest[1..]) == [text[0]] + Join(rest);
      }
    }
  }

  lemma YearsMentioned(text: string, y: int)
    ensures y in AllYears(Split(text)) <==> Mentions(text, y)
  {
    var pieces := Split(text);
    SplitIs(text);
    AllYearsHas(pieces, y);
    if i :| 0 <= i < |pieces| && y in PieceYears(pieces[i]) {
      PieceDenotes(pieces[i], y);
    }
    if Mentions(text, y) {
      var ps :| Pieces(text, ps) && exists i :: 0 <= i < |ps| && Denotes(ps[i], y);
      SplitJoin(ps);
      var i :| 0 <= i < |ps| && Denotes(ps[i], y);
      PieceDenotes(ps[i], y);
    }
  }

  /** A text put together from pieces says what its pieces say. */
  lemma JoinMentions(pieces: seq<string>, y: int)
    requires pieces != [] && forall i :: 0 <= i < |pieces| ==> ',' !in pieces[i]
    ensures Mentions(Join(pieces), y) <==> exists i :: 0 <= i < |pieces| && Denotes(pieces[i], y)
  {
    var text := Join(pieces);
    assert Pieces(text, pieces);
    SplitJoin(pieces);
    if Mentions(text, y) {
      var ps :| Pieces(text, ps) && exists i :: 0 <= i < |ps| && Denotes(ps[i], y);
      SplitJoin(ps);
    }
  }
}
