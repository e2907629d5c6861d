/** The early integer calculator (Interpreter.cpp at the repository root):
    `expr` reads INTEGER tokens joined by PLUS and MINUS from the lexer and
    folds them left to right into a C++ `int`. The lexer it reads from is an
    earlier one that is not part of this model; it is given here as the
    sequence of tokens it returns, END_OF_FILE once that sequence is used
    up. */
module Calculator {
  import opened Wrappers
  import opened Tokens

  const TwoTo31: int := 0x8000_0000
  const TwoTo32: int := 0x1_0000_0000

  /** Why the calculator stops: eat met an unexpected token (the lexer's
      error), or std::stoi rejected the token's text. */
  datatype CalcError =
    | LexerError(at: Token)
    | InvalidArgument(text: string)
    | OutOfRange(text: string)

  /** A 32-bit two's-complement `int` after an addition or subtraction. */
  function Wrap32(x: int): (r: int)
    ensures -TwoTo31 <= r < TwoTo31
    ensures -TwoTo31 <= x < TwoTo31 ==> r == x
  {
    (x + TwoTo31) % TwoTo32 - TwoTo31
  }

  /** Wrapping after every step is wrapping once at the end. */
  lemma WrapAbsorbs(x: int, y: int)
    ensures Wrap32(Wrap32(x) + y) == Wrap32(x + y)
  {
    var k := (x + TwoTo31) / TwoTo32;
    assert Wrap32(x) == x - k * TwoTo32;
    assert (x - k * TwoTo32 + y + TwoTo31) % TwoTo32 == (x + y + TwoTo31) % TwoTo32 by {
      ModShift(x + y + TwoTo31, -k);
    }
  }

  lemma ModShift(a: int, k: int)
    ensures (a + k * TwoTo32) % TwoTo32 == a % TwoTo32
  {
    var q := a / TwoTo32;
    assert a == q * TwoTo32 + a % TwoTo32;
    assert a + k * TwoTo32 == (q + k) * TwoTo32 + a % TwoTo32;
  }

  // ---------------------------------------------------------------------
  // std::stoi

  /** isspace of the C locale: space, tab, newline, vertical tab, form feed,
      carriage return. */
  predicate IsCSpace(c: char) { c == ' ' || '\t' <= c <= '\r' }
  predicate IsDigit(c: char) { '0' <= c <= '9' }

  function SkipCSpaces(s: string): (r: string)
  {
    if |s| > 0 && IsCSpace(s[0]) then SkipCSpaces(s[1..]) else s
  }

  /** The longest prefix of decimal digits. */
  function DigitPrefix(s: string): (r: string)
  {
    if |s| > 0 && IsDigit(s[0]) then [s[0]] + DigitPrefix(s[1..]) else []
  }

  /** The number a string of decimal digits denotes. */
  function DigitsValue(d: string): (r: int)
  {
    if d == [] then 0 else DigitsValue(d[..|d| - 1]) * 10 + (d[|d| - 1] as int - '0' as int)
  }

  /** std::stoi: leading white space, an optional sign, and the longest run
      of digits; no digits is invalid_argument, a value outside `int` is
      out_of_range. Characters after the digits are ignored. */
  function StoI(s: string): (r: Result<int, CalcError>)
    ensures r.Ok? ==> -TwoTo31 <= r.value < TwoTo31
    ensures r.Err? ==> r.error == InvalidArgument(s) || r.error == OutOfRange(s)
  {
    var t := SkipCSpaces(s);
    var signed := |t| > 0 && (t[0] == '-' || t[0] == '+');
    var d := DigitPrefix(if signed then t[1..] else t);
    if d == [] then Err(InvalidArgument(s))
    else
      var v: int := if signed && t[0] == '-' then -DigitsValue(d) else DigitsValue(d);
      if -TwoTo31 <= v < TwoTo31 then Ok(v) else Err(OutOfRange(s))
  }

  /** The decimal digits of `k`, most significant first, with no leading
      zero ("0" for zero). */
  function Digits(k: nat): (r: string)
    ensures |r| >= 1 && forall i :: 0 <= i < |r| ==> IsDigit(r[i])
    decreases k
  {
    if k < 10 then [('0' as int + k) as char]
    else Digits(k / 10) + [('0' as int + k % 10) as char]
  }

  /** The decimal text of an `int`: a minus sign before a negative value. */
  function DecimalText(n: int): (r: string)
    ensures |r| >= 1 && (r[0] == '-' <==> n < 0)
    ensures n >= 0 ==> IsDigit(r[0])
  {
    if n < 0 then "-" + Digits(-n) else Digits(n)
  }

  /** Reading the digits of `k` back gives `k`. */
  lemma {:induction false} DigitsValueOfDigits(k: nat)
    ensures DigitsValue(Digits(k)) == k
    decreases k
  {
    if k >= 10 {
      var d := Digits(k);
      assert d[..|d| - 1] == Digits(k / 10);
      DigitsValueOfDigits(k / 10);
    }
  }

  /** The digit prefix stops at the first character that is not a digit. */
  lemma {:induction false} DigitPrefixStops(d: string, tail: string)
    requires forall i :: 0 <= i < |d| ==> IsDigit(d[i])
    requires tail == [] || !IsDigit(tail[0])
    ensures DigitPrefix(d + tail) == d
    decreases |d|
  {
    if d == [] {
      assert d + tail == tail;
    } else {
      assert (d + tail)[1..] == d[1..] + tail;
      DigitPrefixStops(d[1..], tail);
    }
  }

  /** Skipping white space stops at the first character that is not one. */
  lemma {:induction false} SkipCSpacesStops(sp: string, t: string)
    requires forall i :: 0 <= i < |sp| ==> IsCSpace(sp[i])
    requires t == [] || !IsCSpace(t[0])
    ensures SkipCSpaces(sp + t) == t
    decreases |sp|
  {
    if sp == [] {
      assert sp + t == t;
    } else {
      assert (sp + t)[1..] == sp[1..] + t;
      SkipCSpacesStops(sp[1..], t);
    }
  }

  /** std::stoi reads back every `int` from its decimal text, whatever white
      space precedes it and whatever non-digit follows it. */
  lemma StoIReadsDecimalText(sp: string, n: int, tail: string)
    requires -TwoTo31 <= n < TwoTo31
    requires forall i :: 0 <= i < |sp| ==> IsCSpace(sp[i])
    requires tail == [] || !IsDigit(tail[0])
    ensures StoI(sp + DecimalText(n) + tail) == Ok(n)
  {
    var t := DecimalText(n) + tail;
    assert sp + DecimalText(n) + tail == sp + t;
    assert t[0] == DecimalText(n)[0];
    SkipCSpacesStops(sp, t);
    if n < 0 {
      StoIReadsNegative(sp + t, -n, tail);
    } else {
      StoIReadsNatural(sp + t, n, tail);
    }
  }

  /** The case of a negative value: a minus sign, then the digits. */
  lemma StoIReadsNegative(s: string, k: nat, tail: string)
    requires 0 < k <= TwoTo31
    requires tail == [] || !IsDigit(tail[0])
    requires SkipCSpaces(s) == "-" + Digits(k) + tail
    ensures StoI(s) == Ok(-(k as int))
  {
    var t := "-" + Digits(k) + tail;
    assert t[1..] == Digits(k) + tail;
    DigitPrefixStops(Digits(k), tail);
    DigitsValueOfDigits(k);
  }

  /** The case of a value that is not negative: the digits alone. */
  lemma StoIReadsNatural(s: string, k: nat, tail: string)
    requires k < TwoTo31
    requires tail == [] || !IsDigit(tail[0])
    requires SkipCSpaces(s) == Digits(k) + tail
    ensures StoI(s) == Ok(k)
  {
    DigitPrefixStops(Digits(k), tail);
    DigitsValueOfDigits(k);
  }

  /** std::stoi throws invalid_argument exactly when no digit follows the
      leading white space and the optional sign. */
  lemma StoIInvalidIffNoDigit(s: string)
    ensures var t := SkipCSpaces(s);
      var u := if |t| > 0 && (t[0] == '-' || t[0] == '+') then t[1..] else t;
      StoI(s) == Err(InvalidArgument(s)) <==> !(|u| > 0 && IsDigit(u[0]))
  {
  }

  /** Some values std::stoi gives the calculator. */
  lemma StoIExamples()
    ensures StoI("42") == Ok(42)
    ensures StoI(" -7x") == Ok(-7)
    ensures StoI("+") == Err(InvalidArgument("+"))
  {
    assert DigitPrefix("42") == "42";
    assert " -7x"[1..] == "-7x";
    assert SkipCSpaces(" -7x") == "-7x";
    assert "-7x"[1..] == "7x";
    assert "7x"[1..] == "x";
    assert DigitPrefix("7x") == "7";
    assert DigitsValue("7") == 7;
    assert DigitPrefix("") == "";
  }

  // ---------------------------------------------------------------------
  // The grammar, as pure functions of the token sequence

  /** The token the lexer returns on its (i+1)-th call. */
  function Current(ts: seq<Token>, i: nat): (r: Token)
  {
    if i < |ts| then ts[i] else EndOfFileToken
  }

  /** term at the token fetched i-th: it must be an INTEGER (eat), and its
      text goes through std::stoi. */
  function TermAt(ts: seq<Token>, i: nat): (r: Result<int, CalcError>)
  {
    var t := Current(ts, i);
    if t.kind != Integer then Err(LexerError(t)) else StoI(t.text)
  }

  /** The while loop of expr with the current token at i and `result` acc:
      PLUS adds the next term, MINUS subtracts it, any other token ends the
      loop with the value so far. */
  function Loop(ts: seq<Token>, i: nat, acc: int): (r: Result<int, CalcError>)
    ensures r.Ok? && -TwoTo31 <= acc < TwoTo31 ==> -TwoTo31 <= r.value < TwoTo31
    decreases |ts| - i
  {
    var t := Current(ts, i);
    if t.kind == Plus || t.kind == Minus then
      match TermAt(ts, i + 1)
      case Err(e) => Err(e)
      case Ok(v) => Loop(ts, i + 2, Wrap32(if t.kind == Plus then acc + v else acc - v))
    else Ok(acc)
  }

  /** expr when the lexer's next token is the i-th: a term, then the loop. */
  function ExprFrom(ts: seq<Token>, i: nat): (r: Result<int, CalcError>)
    ensures r.Ok? ==> -TwoTo31 <= r.value < TwoTo31
    ensures Current(ts, i).kind != Integer ==> r == Err(LexerError(Current(ts, i)))
  {
    match TermAt(ts, i)
    case Err(e) => Err(e)
    case Ok(v) => Loop(ts, i + 1, v)
  }

  // ---------------------------------------------------------------------
  // Left-to-right evaluation

  /** One `+ n` or `- n` of an expression: an operator token and an operand
      token. */
  datatype Step = Step(op: Token, operand: Token)

  function Flatten(steps: seq<Step>): (ts: seq<Token>)
    ensures |ts| == 2 * |steps|
  {
    if steps == [] then [] else [steps[0].op, steps[0].operand] + Flatten(steps[1..])
  }

  /** A step the loop accepts, with its operand denoting v. */
  predicate WellFormedStep(s: Step, v: int)
  {
    && (s.op.kind == Plus || s.op.kind == Minus)
    && s.operand.kind == Integer
    && StoI(s.operand.text) == Ok(v)
  }

  /** The exact (unwrapped) sum of the signed operands. */
  function SignedSum(steps: seq<Step>, vs: seq<int>): (r: int)
    requires |vs| == |steps|
  {
    if steps == [] then 0
    else (if steps[0].op.kind == Plus then vs[0] else -vs[0]) + SignedSum(steps[1..], vs[1..])
  }

  /** One turn of the loop: an operator and a well-formed term, giving
      `acc'`. */
  lemma LoopOneStep(ts: seq<Token>, i: nat, acc: int, v: int, acc': int)
    requires Current(ts, i).kind == Plus || Current(ts, i).kind == Minus
    requires TermAt(ts, i + 1) == Ok(v)
    requires acc' == Wrap32(if Current(ts, i).kind == Plus then acc + v else acc - v)
    ensures Loop(ts, i, acc) == Loop(ts, i + 2, acc')
  {
  }

  /** A turn of the loop whose term fails fails the loop. */
  lemma LoopTermFails(ts: seq<Token>, i: nat, acc: int)
    requires Current(ts, i).kind == Plus || Current(ts, i).kind == Minus
    requires TermAt(ts, i + 1).Err?
    ensures Loop(ts, i, acc) == Err(TermAt(ts, i + 1).error)
  {
  }

  /** One turn of the loop, whatever its term gives. */
  lemma LoopTurn(ts: seq<Token>, i: nat, acc: int, operand: Result<int, CalcError>, r: Result<int, CalcError>)
    requires Current(ts, i).kind == Plus || Current(ts, i).kind == Minus
    requires operand == TermAt(ts, i + 1)
    requires operand.Err? ==> r == Err(operand.error)
    requires operand.Ok? ==>
      r == Ok(Wrap32(if Current(ts, i).kind == Plus then acc + operand.value else acc - operand.value))
    ensures r.Err? ==> Loop(ts, i, acc) == r
    ensures r.Ok? ==> Loop(ts, i, acc) == Loop(ts, i + 2, r.value)
  {
    if operand.Err? {
      LoopTermFails(ts, i, acc);
    } else {
      LoopOneStep(ts, i, acc, operand.value, r.value);
    }
  }

  /** The loop ends at a token that is neither PLUS nor MINUS. */
  lemma LoopStops(ts: seq<Token>, i: nat, acc: int)
    requires Current(ts, i).kind != Plus && Current(ts, i).kind != Minus
    ensures Loop(ts, i, acc) == Ok(acc)
  {
  }

  /** The tokens from i on spell the well-formed steps one after another,
      the operands denoting `vs`. */
  predicate StepsAt(ts: seq<Token>, i: nat, steps: seq<Step>, vs: seq<int>)
    requires |vs| == |steps|
    decreases |steps|
  {
    steps == [] ||
    (&& Current(ts, i) == steps[0].op && Current(ts, i + 1) == steps[0].operand
     && WellFormedStep(steps[0], vs[0]) && StepsAt(ts, i + 2, steps[1..], vs[1..]))
  }

  /** The steps after the first are well formed when all of them are. */
  lemma TailWellFormed(steps: seq<Step>, vs: seq<int>)
    requires |vs| == |steps| > 0 && forall k :: 0 <= k < |steps| ==> WellFormedStep(steps[k], vs[k])
    ensures forall k :: 0 <= k < |steps| - 1 ==> WellFormedStep(steps[1..][k], vs[1..][k])
  {
    forall k | 0 <= k < |steps| - 1 ensures WellFormedStep(steps[1..][k], vs[1..][k]) {
      assert WellFormedStep(steps[k + 1], vs[k + 1]);
    }
  }

  /** A flattened list of well-formed steps behind a prefix sits right
      after the prefix, and the stop token right after the list. */
  lemma {:induction false} FlattenedStepsAt(prefix: seq<Token>, steps: seq<Step>, vs: seq<int>, stop: Token, rest: seq<Token>)
    requires |vs| == |steps| && forall k :: 0 <= k < |steps| ==> WellFormedStep(steps[k], vs[k])
    ensures StepsAt(prefix + Flatten(steps) + [stop] + rest, |prefix|, steps, vs)
    ensures Current(prefix + Flatten(steps) + [stop] + rest, |prefix| + 2 * |steps|) == stop
    decreases |steps|
  {
    var ts := prefix + Flatten(steps) + [stop] + rest;
    if steps != [] {
      var prefix' := prefix + [steps[0].op, steps[0].operand];
      assert Flatten(steps) == [steps[0].op, steps[0].operand] + Flatten(steps[1..]);
      assert ts == prefix' + Flatten(steps[1..]) + [stop] + rest;
      TailWellFormed(steps, vs);
      FlattenedStepsAt(prefix', steps[1..], vs[1..], stop, rest);
      assert ts[|prefix|] == steps[0].op && ts[|prefix| + 1] == steps[0].operand;
      assert WellFormedStep(steps[0], vs[0]);
    } else {
      assert ts[|prefix|] == stop;
    }
  }

  /** The exact sum splits into the first signed operand and the rest. */
  lemma SignedSumFirst(steps: seq<Step>, vs: seq<int>, acc: int, exact: int)
    requires |vs| == |steps| > 0
    requires exact == if steps[0].op.kind == Plus then acc + vs[0] else acc - vs[0]
    ensures acc + SignedSum(steps, vs) == exact + SignedSum(steps[1..], vs[1..])
  {
  }

  /** The value the loop reaches from `acc` over the steps: each operand
      added or subtracted, wrapped to 32 bits. */
  function Folded(steps: seq<Step>, vs: seq<int>, acc: int): (r: int)
    requires |vs| == |steps|
  {
    Wrap32(acc + SignedSum(steps, vs))
  }

  /** Folding the first step into `acc` and then the rest is folding all
      the steps: wrapping after each step is wrapping the total once. */
  lemma FoldFirst(r: Result<int, CalcError>, steps: seq<Step>, vs: seq<int>, acc: int, acc': int)
    requires |vs| == |steps| > 0
    requires acc' == Wrap32(if steps[0].op.kind == Plus then acc + vs[0] else acc - vs[0])
    requires r == Ok(Folded(steps[1..], vs[1..], acc'))
    ensures r == Ok(Folded(steps, vs, acc))
  {
    var exact := if steps[0].op.kind == Plus then acc + vs[0] else acc - vs[0];
    SignedSumFirst(steps, vs, acc, exact);
    WrapAbsorbs(exact, SignedSum(steps[1..], vs[1..]));
  }

  /** The first turn of the loop, given what the rest of the loop yields. */
  lemma LoopFirstTurn(ts: seq<Token>, i: nat, steps: seq<Step>, vs: seq<int>, acc: int, acc': int)
    requires |vs| == |steps| > 0 && StepsAt(ts, i, steps, vs)
    requires acc' == Wrap32(if steps[0].op.kind == Plus then acc + vs[0] else acc - vs[0])
    requires Loop(ts, i + 2, acc') == Ok(Folded(steps[1..], vs[1..], acc'))
    ensures Loop(ts, i, acc) == Ok(Folded(steps, vs, acc))
  {
    assert TermAt(ts, i + 1) == Ok(vs[0]);
    LoopOneStep(ts, i, acc, vs[0], acc');
    FoldFirst(Loop(ts, i + 2, acc'), steps, vs, acc, acc');
  }

  /** The loop over well-formed steps at i, up to the stop token. */
  lemma {:induction false} LoopFoldsStepsAt(ts: seq<Token>, i: nat, steps: seq<Step>, vs: seq<int>, acc: int)
    requires |vs| == |steps| && StepsAt(ts, i, steps, vs)
    requires Current(ts, i + 2 * |steps|).kind != Plus && Current(ts, i + 2 * |steps|).kind != Minus
    requires -TwoTo31 <= acc < TwoTo31
    ensures Loop(ts, i, acc) == Ok(Folded(steps, vs, acc))
    decreases |steps|
  {
    if steps != [] {
      var acc' := Wrap32(if steps[0].op.kind == Plus then acc + vs[0] else acc - vs[0]);
      assert i + 2 + 2 * |steps[1..]| == i + 2 * |steps|;
      LoopFoldsStepsAt(ts, i + 2, steps[1..], vs[1..], acc');
      LoopFirstTurn(ts, i, steps, vs, acc, acc');
    } else {
      LoopStops(ts, i, acc);
      assert SignedSum(steps, vs) == 0;
    }
  }

  /** The loop adds and subtracts the operands strictly left to right and
      stops at the first token that is neither PLUS nor MINUS, whatever
      follows it; the `int` result is the exact sum wrapped to 32 bits. */
  lemma LoopFoldsSteps(prefix: seq<Token>, steps: seq<Step>, vs: seq<int>,
                       stop: Token, rest: seq<Token>, acc: int)
    requires |vs| == |steps| && forall k :: 0 <= k < |steps| ==> WellFormedStep(steps[k], vs[k])
    requires stop.kind != Plus && stop.kind != Minus
    requires -TwoTo31 <= acc < TwoTo31
    ensures Loop(prefix + Flatten(steps) + [stop] + rest, |prefix|, acc) == Ok(Wrap32(acc + SignedSum(steps, vs)))
  {
    FlattenedStepsAt(prefix, steps, vs, stop, rest);
    LoopFoldsStepsAt(prefix + Flatten(steps) + [stop] + rest, |prefix|, steps, vs, acc);
  }

  /** A whole expression `n0 (+|-) n1 ... stop rest`: the value is n0 plus
      the signed operands, wrapped to 32 bits, and nothing after the first
      non-operator token is read. */
  lemma TermsCombineLeftToRight(first: Token, v0: int, steps: seq<Step>, vs: seq<int>,
                                stop: Token, rest: seq<Token>)
    requires first.kind == Integer && StoI(first.text) == Ok(v0)
    requires |vs| == |steps| && forall k :: 0 <= k < |steps| ==> WellFormedStep(steps[k], vs[k])
    requires stop.kind != Plus && stop.kind != Minus
    ensures ExprFrom([first] + Flatten(steps) + [stop] + rest, 0) == Ok(Wrap32(v0 + SignedSum(steps, vs)))
  {
    LoopFoldsSteps([first], steps, vs, stop, rest, v0);
  }

  /** expr requires a term first: anything but an INTEGER is the lexer's
      error at that token. */
  lemma ExprStartsWithTerm(ts: seq<Token>)
    ensures Current(ts, 0).kind != Integer ==> ExprFrom(ts, 0) == Err(LexerError(Current(ts, 0)))
    ensures Current(ts, 0).kind == Integer && StoI(Current(ts, 0).text).Err? ==>
      ExprFrom(ts, 0) == Err(StoI(Current(ts, 0).text).error)
  {
  }

  // ---------------------------------------------------------------------
  // The calculator object

  class Interpreter {
    /** What the lexer returns, call by call. */
    const tokens: seq<Token>
    /** How many tokens have been fetched from the lexer. */
    var fetched: nat
    var currentToken: Token

    /** current_token is the token fetched last (it is unset before the
        first fetch). */
    ghost predicate Valid()
      reads this
    {
      fetched > 0 ==> currentToken == Current(tokens, fetched - 1)
    }

    /** Interpreter::Interpreter: a fresh lexer; nothing fetched yet. */
    constructor (tokens: seq<Token>)
      ensures Valid() && this.tokens == tokens && fetched == 0
    {
      this.tokens := tokens;
      fetched := 0;
      currentToken := EndOfFileToken;
    }

    /** `current_token = lexer->get_next_token()`. */
    method Fetch()
      requires Valid()
      modifies this
      ensures Valid() && fetched == old(fetched) + 1
    {
      currentToken := Current(tokens, fetched);
      fetched := fetched + 1;
    }

    /** eat: fetches the next token when the current one has the expected
        type; otherwise the lexer's error, and nothing moves. */
    method Eat(kind: TokenKind) returns (r: Result<(), CalcError>)
      requires Valid() && fetched > 0
      modifies this
      ensures Valid() && fetched > 0
      ensures old(currentToken).kind == kind ==> r.Ok? && fetched == old(fetched) + 1
      ensures old(currentToken).kind != kind ==>
        r == Err(LexerError(old(currentToken))) && fetched == old(fetched)
    {
      if currentToken.kind == kind {
        Fetch();
        return Ok(());
      }
      return Err(LexerError(currentToken));
    }

    /** term: eats an INTEGER and converts its text with std::stoi. */
    method Term() returns (r: Result<int, CalcError>)
      requires Valid() && fetched > 0
      modifies this
      ensures Valid() && fetched > 0
      ensures r == TermAt(tokens, old(fetched) - 1)
      ensures r.Ok? ==> fetched == old(fetched) + 1
    {
      var token := currentToken;
      var eaten := Eat(Integer);
      if eaten.Err? {
        return Err(eaten.error);
      }
      r := StoI(token.text);
    }

    /** One turn of expr's loop: eats the PLUS or MINUS under the cursor
        and adds or subtracts the next term; the loop from here goes on
        from the new position with the new result, or fails as this turn
        does. */
    method AddOrSubtractTerm(result: int) returns (r: Result<int, CalcError>)
      requires Valid() && fetched > 0
      requires currentToken.kind == Plus || currentToken.kind == Minus
      modifies this
      ensures Valid() && fetched > 0
      ensures r.Ok? ==> fetched == old(fetched) + 2
      ensures r.Ok? ==> Loop(tokens, old(fetched) - 1, result) == Loop(tokens, fetched - 1, r.value)
      ensures r.Err? ==> Loop(tokens, old(fetched) - 1, result) == r
    {
      ghost var i := fetched - 1;
      assert Current(tokens, i) == currentToken;
      var plus := currentToken.kind == Plus;
      if plus {
        var eaten := Eat(Plus);
      } else {
        var eaten := Eat(Minus);
      }
      assert fetched == i + 2;
      var operand := Term();
      if operand.Err? {
        r := Err(operand.error);
      } else {
        r := Ok(Wrap32(if plus then result + operand.value else result - operand.value));
      }
      LoopTurn(tokens, i, result, operand, r);
    }

    /** expr: fetches a token, reads a term, then folds `+ term` and
        `- term` into the result until another token comes. */
    method Expr() returns (r: Result<int, CalcError>)
      requires Valid()
      modifies this
      ensures Valid()
      ensures r == ExprFrom(tokens, old(fetched))
    {
      Fetch();
      var first := Term();
      if first.Err? {
        return Err(first.error);
      }
      var result := first.value;
      while currentToken.kind == Plus || currentToken.kind == Minus
        invariant Valid() && fetched > 0
        invariant Loop(tokens, fetched - 1, result) == ExprFrom(tokens, old(fetched))
        decreases |tokens| + 1 - fetched
      {
        var step := AddOrSubtractTerm(result);
        if step.Err? {
          return step;
        }
        result := step.value;
      }
      LoopStops(tokens, fetched - 1, result);
      return Ok(result);
    }
  }
}
