/**
 The log files between the trace generator and the checker: what host/gen_multi/host_generator_thread.cpp writes, and
 what `infile >> str` in test.cpp reads of it.
 */
module LogFiles {
  import opened Decimal
  import opened ReplayLog

  // ---------------------------------------------------------------- writing

  /** One line of a log, lines 37-82. */
  function LineOf(e: Entry): string {
    match e.op
    case Contains => "contains(" + Show(e.x) + (if e.yes then ") yes\n" else ") no\n")
    case Remove => "remove(" + Show(e.x) + (if e.yes then ") yes\n" else ") no\n")
    case Add => "add(" + Show(e.x) + (if e.yes then ") yes\n" else ") no\n")
  }

  function FileOf(es: seq<Entry>): string { if es == [] then "" else LineOf(es[0]) + FileOf(es[1..]) }

  // ---------------------------------------------------------------- reading

  predicate Blank(c: char) { c == ' ' || c == '\t' || c == '\n' || c == '\r' || c == 11 as char || c == 12 as char }

  /** How many characters come before the next blank. */
  function WordEnd(s: string): (k: nat)
    ensures k <= |s| && (s != "" && !Blank(s[0]) ==> k > 0)
  {
    if s == "" || Blank(s[0]) then 0 else 1 + WordEnd(s[1..])
  }

  /** What `>>` reads into strings, one after the other. */
  function Words(s: string): seq<string>
    decreases |s|
  {
    if s == "" then [] else if Blank(s[0]) then Words(s[1..])
    else [s[..WordEnd(s)]] + Words(s[WordEnd(s)..])
  }

  predicate Solid(w: string) { w != "" && forall i :: 0 <= i < |w| ==> !Blank(w[i]) }

  lemma {:induction false} EndOfWord(w: string, c: char, rest: string)
    requires (forall i :: 0 <= i < |w| ==> !Blank(w[i])) && Blank(c)
    ensures WordEnd(w + ([c] + rest)) == |w|
  {
    if w != "" {
      assert (w + ([c] + rest))[1..] == w[1..] + ([c] + rest);
      EndOfWord(w[1..], c, rest);
    }
  }

  lemma WordThen(w: string, c: char, rest: string)
    requires Solid(w) && Blank(c)
    ensures Words(w + ([c] + rest)) == [w] + Words(rest)
  {
    var s := w + ([c] + rest);
    EndOfWord(w, c, rest);
    assert s[0] == w[0] && s[..|w|] == w && s[|w|..] == [c] + rest;
    assert ([c] + rest)[1..] == rest;
  }

  lemma ShowSolid(x: int)
    ensures Solid(Show(x))
  {
    ShowDigits(if x < 0 then -x else x);
  }

  lemma SolidToken(name: string, x: int)
    requires Solid(name)
    ensures Solid(name + Show(x) + ")")
  {
    ShowSolid(x);
  }

  /** A line consists of the two words that the checker expects. */
  lemma LineParts(e: Entry)
    ensures LineOf(e) == OpToken(e) + " " + AnswerToken(e) + "\n" && Solid(OpToken(e)) && Solid(AnswerToken(e))
  {
    SolidToken(Name(e.op), e.x);
  }

  lemma Regrouped(w: string, v: string, rest: string)
    ensures (w + " " + v + "\n") + rest == w + ([' '] + (v + (['\n'] + rest)))
  {
  }

  lemma TwoWords(w: string, v: string, rest: string)
    requires Solid(w) && Solid(v)
    ensures Words((w + " " + v + "\n") + rest) == [w] + ([v] + Words(rest))
  {
    Regrouped(w, v, rest);
    WordThen(w, ' ', v + (['\n'] + rest));
    WordThen(v, '\n', rest);
  }

  lemma LineWords(e: Entry, rest: string)
    ensures Words(LineOf(e) + rest) == [OpToken(e), AnswerToken(e)] + Words(rest)
  {
    LineParts(e);
    TwoWords(OpToken(e), AnswerToken(e), rest);
    assert [OpToken(e)] + ([AnswerToken(e)] + Words(rest)) == [OpToken(e), AnswerToken(e)] + Words(rest);
  }

  /** The words of a file are the tokens of its log. */
  lemma {:induction false} FileWords(es: seq<Entry>)
    ensures Words(FileOf(es)) == Tokens(es)
  {
    if es != [] {
      FileWords(es[1..]);
      LineWords(es[0], FileOf(es[1..]));
      assert OpTokens(es)[1..] == OpTokens(es[1..]) && AnswerTokens(es)[1..] == AnswerTokens(es[1..]);
    }
  }

  /** What is written is read: the checker gets the operations, arguments and answers of the file, in order. */
  lemma FileRead(es: seq<Entry>, i: nat, bare: bool)
    requires Fits32(es) && i <= |es|
    ensures ReadAt(Words(FileOf(es)), 2 * i, bare) == if i == |es| then End else
      Got(es[i].op, if bare && es[i].op.Contains? then 0 else es[i].x, if es[i].yes then 'y' else 'n')
  {
    FileWords(es);
    ReadTokens(es, i, bare);
  }

  /** The words themselves, spelt out. */
  lemma WordsRead(x: int, yes: bool)
    requires -0x8000_0000 <= x < 0x8000_0000
    ensures var answer, a := if yes then "yes" else "no", if yes then 'y' else 'n';
      && ReadAt(["add(" + Show(x) + ")", answer], 0, false) == Got(Add, x, a)
      && ReadAt(["contains(" + Show(x) + ")", answer], 0, false) == Got(Contains, x, a)
      && ReadAt(["remove(" + Show(x) + ")", answer], 0, false) == Got(Remove, x, a)
  {
    var answer := if yes then "yes" else "no";
    ReadOne(["add(" + Show(x) + ")", answer], 0, Entry(Add, x, yes), false);
    ReadOne(["contains(" + Show(x) + ")", answer], 0, Entry(Contains, x, yes), false);
    ReadOne(["remove(" + Show(x) + ")", answer], 0, Entry(Remove, x, yes), false);
  }
}
