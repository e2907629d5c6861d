/** The hand-written scanner (lexer/Lexer.cpp): a cursor over the source
    text that produces one token per call. The pure functions below say what
    one call does from a given position; the Lexer class is proved to do
    exactly that. */
module Lexing {
  import opened Wrappers
  import opened Tokens

  /** The NULL character the lexer uses as its end-of-input marker. */
  const NUL: char := '\0'

  /** The character under position p: NUL beyond the end of the text. */
  function At(code: string, p: nat): (r: char)
  {
    if p < |code| then code[p] else NUL
  }

  /** isdigit, isalpha and isalnum of the C locale. */
  predicate IsDigit(c: char) { '0' <= c <= '9' }
  predicate IsAlpha(c: char) { 'a' <= c <= 'z' || 'A' <= c <= 'Z' }
  predicate IsAlnum(c: char) { IsDigit(c) || IsAlpha(c) }
  predicate IsSpace(c: char) { c == ' ' }

  /** The keyword table built by create_keywords. */
  const Keywords: map<string, TokenKind> := map[
    "have" := VariableDecl, "True" := Boolean, "False" := Boolean,
    "not" := Not, "is" := Equals, "isnt" := NotEquals, "and" := And,
    "or" := Or, "None" := NoneValue, "if" := IfKw, "else" := ElseKw,
    "print" := PrintKw, "int" := Cast, "str" := Cast, "float" := Cast,
    "func" := FunctionKw]

  /** The one-character tokens that have no two-character extension. */
  const SingleCharKinds: map<char, TokenKind> := map[
    ',' := Comma, ';' := Semicolon, '+' := Plus, '-' := Minus, '*' := Mult,
    '%' := Modulo, '(' := LParen, ')' := RParen, '{' := LCurly, '}' := RCurly]

  /** A token and the position just after the characters it consumed. */
  datatype Lexed = Lexed(token: Token, next: nat)

  /** The lexer's only failure: a character no rule accepts. */
  datatype LexError = UnidentifiedToken(ch: char, at: nat)

  /** The end of the run of non-NUL characters of a class that starts at p:
      every character before it is in the class, the one under it is not. */
  function RunEnd(code: string, p: nat, inClass: char -> bool): (q: nat)
    ensures p <= q && (q == p || q <= |code|)
    ensures forall i :: p <= i < q ==> i < |code| && code[i] != NUL && inClass(code[i])
    ensures At(code, q) == NUL || !inClass(At(code, q))
    decreases |code| - p
  {
    if At(code, p) != NUL && inClass(At(code, p)) then RunEnd(code, p + 1, inClass) else p
  }

  /** The text between two positions of a run; empty when nothing was
      consumed past the end. */
  function Span(code: string, p: nat, q: nat): (r: string)
    requires p <= q
  {
    if q <= |code| then code[p..q] else ""
  }

  /** skip_whitespace: only the space character is skipped. */
  function SkipSpaces(code: string, p: nat): (r: nat)
  {
    RunEnd(code, p, IsSpace)
  }

  /** Where number stops: a digit run, then optionally '.' and a second
      digit run. */
  function NumberEnd(code: string, p: nat): (r: nat)
  {
    var q := RunEnd(code, p, IsDigit);
    if At(code, q) == '.' then RunEnd(code, q + 1, IsDigit) else q
  }

  /** number: a FLOAT token holding the consumed characters. */
  function ScanNumber(code: string, p: nat): (r: Lexed)
  {
    var q := NumberEnd(code, p);
    Lexed(Token(Float, Span(code, p, q)), q)
  }

  /** The token handle_identifiers makes of a word: its keyword kind when
      the word is in the table, IDENTIFIER otherwise; the text is the word. */
  function WordToken(w: string): (r: Token)
  {
    Token(if w in Keywords then Keywords[w] else Identifier, w)
  }

  /** handle_identifiers: the maximal alphanumeric run as one token. */
  function ScanWord(code: string, p: nat): (r: Lexed)
  {
    var q := RunEnd(code, p, IsAlnum);
    Lexed(WordToken(Span(code, p, q)), q)
  }

  /** The branches of get_next_token after whitespace, for the character at
      s and the one after it (peek). A NUL at s matches no branch. */
  function Dispatch(code: string, s: nat): (r: Result<Lexed, LexError>)
  {
    var c := At(code, s);
    var n := At(code, s + 1);
    if IsDigit(c) then Ok(ScanNumber(code, s))
    else if IsAlpha(c) then Ok(ScanWord(code, s))
    else if c == '&' && n == '&' then Ok(Lexed(Token(And, "&&"), s + 2))
    else if c == '|' && n == '|' then Ok(Lexed(Token(Or, "||"), s + 2))
    else if c == '!' && n == '=' then Ok(Lexed(Token(NotEquals, "!="), s + 2))
    else if c == '!' then Ok(Lexed(Token(Not, "!"), s + 1))
    else if c == '=' && n == '=' then Ok(Lexed(Token(Equals, "=="), s + 2))
    else if c == '=' then Ok(Lexed(Token(AssignOp, "="), s + 1))
    else if c == '/' && n == '/' then Ok(Lexed(Token(IntDiv, "//"), s + 2))
    else if c == '/' then Ok(Lexed(Token(Div, "/"), s + 1))
    else if c in SingleCharKinds then Ok(Lexed(Token(SingleCharKinds[c], [c]), s + 1))
    else Err(UnidentifiedToken(c, s))
  }

  /** get_next_token from position p: skip spaces; END_OF_FILE with empty
      text when nothing but spaces is left; otherwise one token. */
  function NextToken(code: string, p: nat): (r: Result<Lexed, LexError>)
  {
    var s := SkipSpaces(code, p);
    if At(code, s) == NUL then Ok(Lexed(EndOfFileToken, s)) else Dispatch(code, s)
  }

  /** get_next_token exactly as written: the end-of-input test happens only
      before the spaces are skipped, and "!=" is given the text "==". */
  function NextTokenAsWritten(code: string, p: nat): (r: Result<Lexed, LexError>)
    ensures At(code, p) == NUL ==> r == Ok(Lexed(EndOfFileToken, p))
    ensures At(code, p) != NUL && At(code, SkipSpaces(code, p)) == NUL ==>
              r == Err(UnidentifiedToken(NUL, SkipSpaces(code, p)))
  {
    if At(code, p) == NUL then Ok(Lexed(EndOfFileToken, p))
    else
      var s := SkipSpaces(code, p);
      if At(code, s) == '!' && At(code, s + 1) == '=' then Ok(Lexed(Token(NotEquals, "=="), s + 2))
      else Dispatch(code, s)
  }

  /** The lexer driven to END_OF_FILE: what the parser sees. */
  function Tokenize(code: string, p: nat): (r: Result<seq<Token>, LexError>)
    ensures r.Ok? ==> |r.value| > 0 && r.value[|r.value| - 1] == EndOfFileToken
    ensures r.Ok? ==> forall i :: 0 <= i < |r.value| - 1 ==> r.value[i].kind != EndOfFile
    decreases |code| - p
  {
    NextTokenAdvances(code, p);
    match NextToken(code, p)
    case Err(e) => Err(e)
    case Ok(l) =>
      if l.token.kind == EndOfFile then Ok([l.token])
      else
        match Tokenize(code, l.next)
        case Err(e) => Err(e)
        case Ok(rest) => Ok([l.token] + rest)
  }

  /** The one-token view of a scanning step, as get_next_token returns it. */
  function TokenOf(r: Result<Lexed, LexError>): (res: Result<Token, LexError>)
  {
    match r
    case Ok(l) => Ok(l.token)
    case Err(e) => Err(e)
  }

  // ---------------------------------------------------------------------
  // Properties of one scanning step

  /** Extending a span by the character under its end. */
  lemma SpanExtend(code: string, p: nat, q: nat)
    requires p <= q < |code|
    ensures Span(code, p, q) + [code[q]] == Span(code, p, q + 1)
  {
    assert code[p..q + 1] == code[p..q] + [code[q]];
  }

  /** A run that stops at q has q as its end. */
  lemma {:induction false} RunEndIs(code: string, p: nat, q: nat, inClass: char -> bool)
    requires p <= q <= |code|
    requires forall i :: p <= i < q ==> code[i] != NUL && inClass(code[i])
    requires At(code, q) == NUL || !inClass(At(code, q))
    ensures RunEnd(code, p, inClass) == q
    decreases q - p
  {
    if p < q {
      RunEndIs(code, p + 1, q, inClass);
    }
  }

  /** number consumes a digit run, at most one '.', and a second digit run;
      it stops at the first character that cannot extend the number, and
      its text is exactly what it consumed. */
  lemma NumberIsMaximal(code: string, p: nat)
    requires IsDigit(At(code, p))
    ensures var l := ScanNumber(code, p);
      && p < l.next <= |code|
      && l.token == Token(Float, code[p..l.next])
      && (forall i :: p <= i < l.next ==> IsDigit(code[i]) || code[i] == '.')
      && (forall i, j :: p <= i < j < l.next && code[i] == '.' ==> code[j] != '.')
      && !IsDigit(At(code, l.next))
      && ((forall i :: p <= i < l.next ==> code[i] != '.') ==> At(code, l.next) != '.')
  {
    var q := RunEnd(code, p, IsDigit);
    if At(code, q) == '.' {
      assert q < |code| && code[q] == '.';
    }
  }

  /** handle_identifiers consumes the maximal alphanumeric run; the token's
      text is that run, and its kind is the keyword's when the run is a
      keyword and IDENTIFIER otherwise. */
  lemma WordIsMaximal(code: string, p: nat)
    requires IsAlpha(At(code, p))
    ensures var l := ScanWord(code, p);
      && p < l.next <= |code|
      && l.token.text == code[p..l.next]
      && (forall i :: p <= i < l.next ==> IsAlnum(code[i]))
      && !IsAlnum(At(code, l.next))
      && (l.token.text in Keywords ==> l.token.kind == Keywords[l.token.text])
      && (l.token.text !in Keywords ==> l.token.kind == Identifier)
  {
  }

  /** Every token other than END_OF_FILE consumes at least one character
      after the skipped spaces, and its text is exactly the characters it
      consumed; so repeated calls make progress. */
  lemma NextTokenConsumesItsText(code: string, p: nat)
    ensures var s := SkipSpaces(code, p);
      NextToken(code, p).Ok? && NextToken(code, p).value.token.kind != EndOfFile ==>
        var l := NextToken(code, p).value;
        p <= s < l.next <= |code| && l.token.text == code[s..l.next]
  {
    var s := SkipSpaces(code, p);
    var c, n := At(code, s), At(code, s + 1);
    if c != NUL {
      if IsDigit(c) {
        NumberIsMaximal(code, s);
      } else if IsAlpha(c) {
        WordIsMaximal(code, s);
      } else if n != NUL && ((c == '&' && n == '&') || (c == '|' && n == '|') || (c == '!' && n == '=')
                             || (c == '=' && n == '=') || (c == '/' && n == '/')) {
        assert code[s..s + 2] == [c, n];
      } else {
        assert code[s..s + 1] == [c];
      }
    }
  }

  /** Every branch after the spaces consumes at least one character, and
      the only failure names the character under the cursor. */
  lemma DispatchConsumesOrRejects(code: string, s: nat)
    ensures Dispatch(code, s).Ok? ==> s < Dispatch(code, s).value.next
    ensures Dispatch(code, s).Err? ==> Dispatch(code, s).error == UnidentifiedToken(At(code, s), s)
  {
  }

  /** So driving the lexer makes progress through the text. */
  lemma NextTokenAdvances(code: string, p: nat)
    ensures NextToken(code, p).Ok? && NextToken(code, p).value.token.kind != EndOfFile ==>
      p < NextToken(code, p).value.next <= |code|
    ensures NextToken(code, p).Ok? && NextToken(code, p).value.token.kind == EndOfFile ==>
      NextToken(code, p).value.token == EndOfFileToken
  {
    NextTokenConsumesItsText(code, p);
    EndOfFileIffOnlySpacesLeft(code, p);
  }

  /** get_next_token returns END_OF_FILE, with empty text and without
      consuming anything but spaces, exactly when only spaces are left. */
  lemma EndOfFileIffOnlySpacesLeft(code: string, p: nat)
    ensures var s := SkipSpaces(code, p);
      (NextToken(code, p).Ok? && NextToken(code, p).value.token.kind == EndOfFile)
        <==> At(code, s) == NUL
    ensures var s := SkipSpaces(code, p);
      At(code, s) == NUL ==> NextToken(code, p) == Ok(Lexed(Token(EndOfFile, ""), s))
  {
    var s := SkipSpaces(code, p);
    if At(code, s) != NUL && IsAlpha(At(code, s)) {
      WordIsMaximal(code, s);
    }
  }

  /** Two-character operators win over their one-character prefixes, and
      '&' and '|' are accepted only doubled. */
  lemma LongestMatch(code: string, p: nat)
    ensures var s := SkipSpaces(code, p);
      var c, n := At(code, s), At(code, s + 1);
      && (c == '=' ==>
            NextToken(code, p) == (if n == '=' then Ok(Lexed(Token(Equals, "=="), s + 2)) else Ok(Lexed(Token(AssignOp, "="), s + 1))))
      && (c == '!' ==>
            NextToken(code, p) == (if n == '=' then Ok(Lexed(Token(NotEquals, "!="), s + 2)) else Ok(Lexed(Token(Not, "!"), s + 1))))
      && (c == '/' ==>
            NextToken(code, p) == (if n == '/' then Ok(Lexed(Token(IntDiv, "//"), s + 2)) else Ok(Lexed(Token(Div, "/"), s + 1))))
      && (c == '&' ==>
            NextToken(code, p) == (if n == '&' then Ok(Lexed(Token(And, "&&"), s + 2)) else Err(UnidentifiedToken('&', s))))
      && (c == '|' ==>
            NextToken(code, p) == (if n == '|' then Ok(Lexed(Token(Or, "||"), s + 2)) else Err(UnidentifiedToken('|', s))))
  {
  }

  /** The characters a token can start with. */
  predicate StartsToken(c: char)
  {
    IsAlnum(c) || c in SingleCharKinds || c == '&' || c == '|' || c == '!' || c == '=' || c == '/'
  }

  /** After the spaces, the lexer fails exactly on a character no rule
      starts with (tabs and newlines included) or on a lone '&' or '|'. */
  lemma ErrorIffUnrecognised(code: string, p: nat)
    ensures var s := SkipSpaces(code, p);
      var c, n := At(code, s), At(code, s + 1);
      NextToken(code, p).Err? <==>
        c != NUL && (!StartsToken(c) || (c == '&' && n != '&') || (c == '|' && n != '|'))
    ensures NextToken(code, p).Err? ==> NextToken(code, p).error.at == SkipSpaces(code, p)
  {
  }

  /** A word: a letter followed by letters and digits. */
  predicate IsWord(w: string)
  {
    |w| > 0 && IsAlpha(w[0]) && forall i :: 0 <= i < |w| ==> IsAlnum(w[i])
  }

  /** A word followed by anything that cannot continue it is scanned as one
      token: its keyword kind when it is in the table (so "isnt" is
      NOT_EQUALS and "int" is CAST), IDENTIFIER otherwise. */
  lemma WordLexesAsOneToken(w: string, rest: string)
    requires IsWord(w)
    requires rest == [] || !IsAlnum(rest[0])
    ensures NextToken(w + rest, 0) == Ok(Lexed(WordToken(w), |w|))
    ensures w in Keywords ==> NextToken(w + rest, 0) == Ok(Lexed(Token(Keywords[w], w), |w|))
  {
    var code := w + rest;
    assert SkipSpaces(code, 0) == 0;
    RunEndIs(code, 0, |w|, IsAlnum);
    assert code[0..|w|] == w;
  }

  // ---------------------------------------------------------------------
  // Discrepancies of the code as written

  /** Trailing spaces: after skipping them the code as written meets NUL,
      which no branch accepts. */
  lemma TrailingSpaceAsWritten()
    ensures NextTokenAsWritten("1 ", 1) == Err(UnidentifiedToken(NUL, 2))
    ensures NextToken("1 ", 1) == Ok(Lexed(EndOfFileToken, 2))
  {
    assert SkipSpaces("1 ", 1) == 2;
  }

  /** "!=" gets the text "==", which is not what it consumed. */
  lemma NotEqualsTextAsWritten()
    ensures NextTokenAsWritten("!=", 0) == Ok(Lexed(Token(NotEquals, "=="), 2))
    ensures NextToken("!=", 0) == Ok(Lexed(Token(NotEquals, "!="), 2))
    ensures "!="[0..2] != "=="
  {
  }

  /** The code as written and the corrected step differ exactly on those two
      inputs: only spaces left after a space, and "!=". */
  lemma AsWrittenDiffersOnlyThere(code: string, p: nat)
    ensures var s := SkipSpaces(code, p);
      NextTokenAsWritten(code, p) != NextToken(code, p) <==>
        (At(code, p) != NUL && At(code, s) == NUL) || (At(code, s) == '!' && At(code, s + 1) == '=')
  {
    var s := SkipSpaces(code, p);
    if At(code, p) == NUL {
      assert s == p;
    }
  }

  // ---------------------------------------------------------------------
  // The lexer object

  class Lexer {
    const code: string
    var pos: nat
    var currentChar: char
    const keywords: map<string, TokenKind>

    /** current_char is always the character under pos. */
    ghost predicate Valid()
      reads this
    {
      currentChar == At(code, pos) && keywords == Keywords
    }

    /** Lexer::Lexer: the cursor starts on the first character (NUL for
        empty text), and create_keywords fills the table. */
    constructor (code: string)
      ensures Valid() && this.code == code && pos == 0
    {
      this.code := code;
      pos := 0;
      currentChar := if 0 < |code| then code[0] else NUL;
      keywords := Keywords;
    }

    /** advance: one position on; NUL past the last character. On empty text
        the bound `length() - 1` wraps and the read is out of range, so the
        text must not be empty. */
    method Advance()
      requires Valid() && |code| > 0
      modifies this
      ensures Valid() && pos == old(pos) + 1
    {
      pos := pos + 1;
      if pos > |code| - 1 {
        currentChar := NUL;
      } else {
        currentChar := code[pos];
      }
    }

    /** peek: the character after the cursor, NUL past the end. */
    method Peek() returns (c: char)
      requires Valid() && |code| > 0
      ensures c == At(code, pos + 1)
      ensures pos + 1 >= |code| ==> c == NUL
    {
      var peekPos := pos + 1;
      if peekPos > |code| - 1 {
        return NUL;
      }
      return code[peekPos];
    }

    /** skip_whitespace: moves past the spaces under the cursor. */
    method SkipWhitespace()
      requires Valid()
      modifies this
      ensures Valid() && pos == SkipSpaces(code, old(pos))
    {
      while currentChar != NUL && currentChar == ' '
        invariant Valid()
        invariant SkipSpaces(code, pos) == SkipSpaces(code, old(pos))
        decreases |code| - pos
      {
        Advance();
      }
    }

    /** The digit-run loop of number: appends the digits under the cursor
        to `prefix`, the text read since `start`. */
    method Digits(ghost start: nat, prefix: string) returns (result: string)
      requires Valid() && start <= pos && prefix == Span(code, start, pos)
      modifies this
      ensures Valid() && pos == RunEnd(code, old(pos), IsDigit)
      ensures result == Span(code, start, pos)
    {
      result := prefix;
      while currentChar != NUL && IsDigit(currentChar)
        invariant Valid() && start <= old(pos) <= pos
        invariant RunEnd(code, pos, IsDigit) == RunEnd(code, old(pos), IsDigit)
        invariant result == Span(code, start, pos)
        decreases |code| - pos
      {
        SpanExtend(code, start, pos);
        result := result + [currentChar];
        Advance();
      }
    }

    /** number: the digits, an optional '.', and further digits. */
    method Number() returns (token: Token)
      requires Valid()
      modifies this
      ensures Valid() && ScanNumber(code, old(pos)) == Lexed(token, pos)
    {
      ghost var start := pos;
      var result := Digits(start, "");
      if currentChar == '.' {
        SpanExtend(code, start, pos);
        result := result + [currentChar];
        Advance();
        result := Digits(start, result);
      }
      token := Token(Float, result);
    }

    /** handle_identifiers: the alphanumeric run, as a keyword or an
        identifier. */
    method HandleIdentifiers() returns (token: Token)
      requires Valid()
      modifies this
      ensures Valid() && ScanWord(code, old(pos)) == Lexed(token, pos)
    {
      ghost var start := pos;
      var result := "";
      while currentChar != NUL && IsAlnum(currentChar)
        invariant Valid() && start <= pos
        invariant RunEnd(code, pos, IsAlnum) == RunEnd(code, start, IsAlnum)
        invariant result == Span(code, start, pos)
        decreases |code| - pos
      {
        SpanExtend(code, start, pos);
        result := result + [currentChar];
        Advance();
      }
      if result in keywords {
        return Token(keywords[result], result);
      }
      return Token(Identifier, result);
    }

    /** get_next_token: one token from the cursor, END_OF_FILE when only
        spaces are left, or the error for a character no rule accepts. */
    method GetNextToken() returns (r: Result<Token, LexError>)
      requires Valid()
      modifies this
      ensures Valid()
      ensures r == TokenOf(NextToken(code, old(pos)))
      ensures NextToken(code, old(pos)).Ok? ==> pos == NextToken(code, old(pos)).value.next
    {
      if currentChar == ' ' {
        SkipWhitespace();
      }
      assert pos == SkipSpaces(code, old(pos));
      if currentChar == NUL {
        return Ok(EndOfFileToken);
      }
      assert NextToken(code, old(pos)) == Dispatch(code, pos);
      if IsDigit(currentChar) {
        var t := Number();
        return Ok(t);
      }
      if IsAlpha(currentChar) {
        var t := HandleIdentifiers();
        return Ok(t);
      }
      var c := currentChar;
      var n := Peek();
      if (c == '&' && n == '&') || (c == '|' && n == '|') || (c == '!' && n == '=')
         || (c == '=' && n == '=') || (c == '/' && n == '/') {
        Advance();
        Advance();
        var kind := if c == '&' then And else if c == '|' then Or else if c == '!' then NotEquals
                    else if c == '=' then Equals else IntDiv;
        return Ok(Token(kind, [c, n]));
      }
      if c == '!' || c == '=' || c == '/' {
        Advance();
        var kind := if c == '!' then Not else if c == '=' then AssignOp else Div;
        return Ok(Token(kind, [c]));
      }
      if c in SingleCharKinds {
        Advance();
        return Ok(Token(SingleCharKinds[c], [c]));
      }
      return Err(UnidentifiedToken(c, pos));
    }
  }
}
