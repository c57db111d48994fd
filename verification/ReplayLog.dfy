/**
 The logs that test.cpp replays: tokens such as "add(5)" and "yes", read by `str2int` and by the first
 character of a token. `str2int` works in 32-bit two's complement, which wraps.
 */
module ReplayLog {
  import opened Decimal

  const M: int := 0x1_0000_0000

  /** The 32-bit integer that a mathematical integer wraps to. */
  function Wrap(x: int): int { (x + M / 2) % M - M / 2 }

  /** What `str2int` returns. */
  function Value(s: string): int {
    if s != "" && s[0] == '-' then Wrap(-Eval(s[1..])) else Wrap(Eval(s))
  }

  ghost predicate Congruent(a: int, b: int) { exists q: int :: a == b + q * M }

  lemma WrapCongruent(a: int, b: int)
    requires Congruent(a, b)
    ensures Wrap(a) == Wrap(b)
  {
    var q: int :| a == b + q * M;
    ModShift(b + M / 2, q);
  }

  lemma {:induction false} ModShift(x: int, q: int)
    ensures (x + q * M) % M == x % M
    decreases if q < 0 then -q else q
  {
    if q > 0 {
      ModShift(x, q - 1);
      assert (x + q * M) % M == (x + (q - 1) * M + M) % M;
    } else if q < 0 {
      ModShift(x, q + 1);
      assert (x + (q + 1) * M) % M == (x + q * M + M) % M;
    }
  }

  lemma WrapIs(x: int)
    ensures Congruent(Wrap(x), x) && (-(M / 2) <= x < M / 2 ==> Wrap(x) == x)
  {
    var y := x + M / 2;
    assert y == y / M * M + y % M;
    assert Wrap(x) == x + (-(y / M)) * M;
  }

  lemma Sum(a: int, b: int, c: int, d: int)
    requires Congruent(a, b) && Congruent(c, d)
    ensures Congruent(a + c, b + d)
  {
    var q: int :| a == b + q * M;
    var r: int :| c == d + r * M;
    assert a + c == (b + d) + (q + r) * M;
  }

  lemma Product(n: int, a: int, b: int)
    requires Congruent(a, b)
    ensures Congruent(n * a, n * b)
  {
    var q: int :| a == b + q * M;
    assert n * (q * M) == (n * q) * M;
    assert n * a == n * b + (n * q) * M;
  }

  lemma Chain(a: int, b: int, c: int)
    requires Congruent(a, b) && Congruent(b, c)
    ensures Congruent(a, c)
  {
    var q: int :| a == b + q * M;
    var r: int :| b == c + r * M;
    assert a == c + (q + r) * M;
  }

  /** The digits from `i` on have been added up, modulo 2^32. */
  ghost predicate Summed(nstr: string, i: nat, result: int, power: int) {
    && i <= |nstr| && Wrap(result) == result
    && Congruent(result, Eval(nstr[i..])) && Congruent(power, Pow10(|nstr| - i))
  }

  lemma NoneSummed(nstr: string)
    ensures Summed(nstr, |nstr|, 0, 1)
  {
    assert nstr[|nstr|..] == "";
    assert 0 == 0 + 0 * M && 1 == 1 + 0 * M;
  }

  /** One more digit to the left, with every intermediate result wrapped. */
  lemma MoreDigits(nstr: string, i: nat, result: int, power: int)
    requires i < |nstr| && Summed(nstr, i + 1, result, power)
    ensures Summed(nstr, i, Wrap(result + Wrap(Digit(nstr[i]) * power)), Wrap(power * 10))
  {
    var d, p := Digit(nstr[i]), Pow10(|nstr| - i - 1);
    var num := Wrap(d * power);
    assert Congruent(num, d * p) by {
      Product(d, power, p);
      WrapIs(d * power);
      Chain(num, d * power, d * p);
    }
    assert nstr[i..][1..] == nstr[i + 1..];
    assert Congruent(Wrap(result + num), Eval(nstr[i..])) by {
      Sum(result, Eval(nstr[i + 1..]), num, d * p);
      WrapIs(result + num);
      Chain(Wrap(result + num), result + num, Eval(nstr[i..]));
    }
    assert Congruent(Wrap(power * 10), Pow10(|nstr| - i)) by {
      Product(10, power, p);
      WrapIs(power * 10);
      Chain(Wrap(power * 10), power * 10, 10 * p);
    }
    WrapTwice(result + num);
  }

  lemma AllSummed(nstr: string, result: int, power: int)
    requires Summed(nstr, 0, result, power)
    ensures result == Wrap(Eval(nstr)) && Wrap(0 - result) == Wrap(-Eval(nstr))
  {
    assert nstr[0..] == nstr;
    WrapCongruent(result, Eval(nstr));
    Product(-1, result, Eval(nstr));
    WrapCongruent(-result, -Eval(nstr));
  }

  /** Lines 34-37: one digit. */
  method AddDigit(nstr: string, i: nat, result: int, power: int) returns (result': int, power': int)
    requires i < |nstr| && Summed(nstr, i + 1, result, power)
    ensures Summed(nstr, i, result', power')
  {
    MoreDigits(nstr, i, result, power);
    var num := Digit(nstr[i]);
    num := Wrap(num * power);
    result' := Wrap(result + num);
    power' := Wrap(power * 10);
  }

  /** Lines 33-38: the digits from right to left. */
  method AddDigits(nstr: string) returns (result: int, power: int)
    ensures Summed(nstr, 0, result, power)
  {
    result, power := 0, 1;
    NoneSummed(nstr);
    for i := |nstr| downto 0
      invariant Summed(nstr, i, result, power)
    {
      result, power := AddDigit(nstr, i, result, power);
    }
  }

  /** Lines 19-44. */
  method Str2Int(str: string) returns (r: int)
    ensures r == Value(str)
  {
    var nstr, sign := str, 1;
    if str != "" && str[0] == '-' {
      nstr := str[1..];
      sign := 0;
    }
    var result, power := AddDigits(nstr);
    AllSummed(nstr, result, power);
    if sign == 1 {
      return result;
    }
    return Wrap(0 - result);
  }

  lemma WrapTwice(x: int)
    ensures Wrap(Wrap(x)) == Wrap(x)
  {
    WrapIs(Wrap(x));
  }

  /** Every 32-bit integer is read back from its decimal form. */
  lemma ReadBack(x: int)
    requires -(M / 2) <= x < M / 2
    ensures Value(Show(x)) == x
  {
    if x < 0 {
      EvalShow(-x);
      assert ("-" + ShowNat(-x))[1..] == ShowNat(-x);
    } else {
      EvalShow(x);
    }
    WrapIs(x);
  }

  // ---------------------------------------------------------------- entries

  datatype Op = Add | Contains | Remove

  /** One line of a log: an operation, its argument, and whether the answer was yes. */
  datatype Entry = Entry(op: Op, x: int, yes: bool)

  /** What the checker makes of the next tokens of a stream. */
  datatype Read = End | Weird(token: string) | OutOfRange | Got(op: Op, x: int, answer: char)

  /** `s[0]`, which is the null character for an empty string. */
  function First(s: string): char { if s == "" then 0 as char else s[0] }

  function Name(op: Op): string {
    match op
    case Add => "add("
    case Contains => "contains("
    case Remove => "remove("
  }

  /** `token.substr(k, token.length() - k - 1)`, without the closing bracket; too short a token throws. */
  predicate LongEnough(token: string, k: nat) { k <= |token| }

  function Argument(token: string, k: nat): string
    requires LongEnough(token, k)
  {
    if |token| == k then "" else token[k..|token| - 1]
  }

  /** The token after `pos`; at the end of the stream the old token stays. */
  function AnswerAt(tokens: seq<string>, pos: nat): char
    requires pos < |tokens|
  {
    First(if pos + 1 < |tokens| then tokens[pos + 1] else tokens[pos])
  }

  function ReadArgument(tokens: seq<string>, pos: nat, op: Op): Read
    requires pos < |tokens|
  {
    var k := |Name(op)|;
    if LongEnough(tokens[pos], k) then Got(op, Value(Argument(tokens[pos], k)), AnswerAt(tokens, pos)) else OutOfRange
  }

  /** Two tokens; `bare` says that the argument of a `contains` is not looked at. */
  function ReadAt(tokens: seq<string>, pos: nat, bare: bool): Read {
    if pos >= |tokens| then End
    else if First(tokens[pos]) == 'a' then ReadArgument(tokens, pos, Add)
    else if First(tokens[pos]) == 'c' then
      if bare then Got(Contains, 0, AnswerAt(tokens, pos)) else ReadArgument(tokens, pos, Contains)
    else if First(tokens[pos]) == 'r' then ReadArgument(tokens, pos, Remove)
    else Weird(tokens[pos])
  }

  method ReadEntry(tokens: seq<string>, pos: nat, bare: bool) returns (r: Read)
    ensures r == ReadAt(tokens, pos, bare)
  {
    if pos >= |tokens| {
      return End;
    }
    var token := tokens[pos];
    var op;
    if First(token) == 'a' {
      op := Add;
    } else if First(token) == 'c' {
      if bare {
        return Got(Contains, 0, AnswerAt(tokens, pos));
      }
      op := Contains;
    } else if First(token) == 'r' {
      op := Remove;
    } else {
      return Weird(token);
    }
    if !LongEnough(token, |Name(op)|) {
      return OutOfRange;
    }
    var x := Str2Int(Argument(token, |Name(op)|));
    return Got(op, x, AnswerAt(tokens, pos));
  }

  // ---------------------------------------------------------------- well-formed logs

  function OpToken(e: Entry): string { Name(e.op) + Show(e.x) + ")" }

  function AnswerToken(e: Entry): string { if e.yes then "yes" else "no" }

  /** The elements of `a` and `b` by turns. */
  function Woven(a: seq<string>, b: seq<string>): (r: seq<string>)
    requires |a| == |b|
    ensures |r| == 2 * |a|
  {
    if a == [] then [] else [a[0], b[0]] + Woven(a[1..], b[1..])
  }

  lemma {:induction false} WovenAt(a: seq<string>, b: seq<string>, i: nat)
    requires i < |a| == |b|
    ensures Woven(a, b)[2 * i] == a[i] && Woven(a, b)[2 * i + 1] == b[i]
    decreases i
  {
    if i > 0 {
      WovenAt(a[1..], b[1..], i - 1);
    }
  }

  function OpTokens(es: seq<Entry>): seq<string> { seq(|es|, i requires 0 <= i < |es| => OpToken(es[i])) }

  function AnswerTokens(es: seq<Entry>): seq<string> { seq(|es|, i requires 0 <= i < |es| => AnswerToken(es[i])) }

  /** The tokens of a log file. */
  function Tokens(es: seq<Entry>): (tokens: seq<string>)
    ensures |tokens| == 2 * |es|
  {
    Woven(OpTokens(es), AnswerTokens(es))
  }

  predicate Fits32(es: seq<Entry>) { forall i :: 0 <= i < |es| ==> -(M / 2) <= es[i].x < M / 2 }

  lemma TokenParts(e: Entry)
    ensures var token, k := OpToken(e), |Name(e.op)|;
      && token != "" && First(token) == First(Name(e.op)) && LongEnough(token, k) && Argument(token, k) == Show(e.x)
    ensures First(AnswerToken(e)) == if e.yes then 'y' else 'n'
  {
    var token, k := OpToken(e), |Name(e.op)|;
    assert token[0] == Name(e.op)[0];
    assert token[k..|token| - 1] == Show(e.x);
  }

  lemma ReadPair(tokens: seq<string>, pos: nat, e: Entry)
    requires pos + 1 < |tokens| && tokens[pos] == OpToken(e) && tokens[pos + 1] == AnswerToken(e)
    requires -(M / 2) <= e.x < M / 2
    ensures ReadArgument(tokens, pos, e.op) == Got(e.op, e.x, if e.yes then 'y' else 'n')
    ensures AnswerAt(tokens, pos) == if e.yes then 'y' else 'n'
  {
    TokenParts(e);
    ReadBack(e.x);
  }

  lemma ReadOne(tokens: seq<string>, pos: nat, e: Entry, bare: bool)
    requires pos + 1 < |tokens| && tokens[pos] == OpToken(e) && tokens[pos + 1] == AnswerToken(e)
    requires -(M / 2) <= e.x < M / 2
    ensures ReadAt(tokens, pos, bare)
      == Got(e.op, if bare && e.op.Contains? then 0 else e.x, if e.yes then 'y' else 'n')
  {
    ReadPair(tokens, pos, e);
    TokenParts(e);
  }

  lemma TokensAt(es: seq<Entry>, i: nat)
    requires i < |es|
    ensures Tokens(es)[2 * i] == OpToken(es[i]) && Tokens(es)[2 * i + 1] == AnswerToken(es[i])
  {
    WovenAt(OpTokens(es), AnswerTokens(es), i);
  }

  /** Reading a well-formed log gives back its entries, one after the other. */
  lemma ReadTokens(es: seq<Entry>, i: nat, bare: bool)
    requires Fits32(es) && i <= |es|
    ensures ReadAt(Tokens(es), 2 * i, bare) == if i == |es| then End else
      Got(es[i].op, if bare && es[i].op.Contains? then 0 else es[i].x, if es[i].yes then 'y' else 'n')
  {
    var tokens, pos := Tokens(es), 2 * i;
    if i < |es| {
      TokensAt(es, i);
      ReadOne(tokens, pos, es[i], bare);
    }
  }
}
