/** The grammar of parser/Parser.cpp as pure functions over the token
    sequence the lexer produces. Each rule takes the position of the current
    token and returns the node it builds together with the position of the
    token that is current afterwards; a syntax error carries the offending
    token. The `Parser` class (module Parsing) runs the same rules step by
    step and is proved to agree with these functions.

    Every rule is measured by the tokens left, `|ts| - pos`, and then by a
    rank: a rule calls a rule of lower rank at the same position, and any
    rule once a token has been consumed. */
module Grammar {
  import opened Wrappers
  import opened Tokens
  import opened Ast

  /** `error(token)` ends the process with a syntax error at `token`;
      `OutOfRange` is the std::out_of_range that `vector::at` throws;
      `FallsOffEnd` is else_statement reaching its end without a return
      when neither `if` nor `{` follows `else`. */
  datatype ParseError = SyntaxError(at: Token) | OutOfRange | FallsOffEnd(at: Token)

  /** What a rule built and where the next token is. */
  datatype Step<+T> = Step(value: T, next: nat)

  type Parsed<T> = Result<Step<T>, ParseError>

  /** The current token: past the end the lexer keeps returning END_OF_FILE. */
  function At(ts: seq<Token>, pos: nat): (t: Token)
    ensures pos >= |ts| ==> t == EndOfFileToken
    ensures t.kind != EndOfFile ==> pos < |ts|
  {
    if pos < |ts| then ts[pos] else EndOfFileToken
  }

  /** The position after `get_next_token`. */
  function Next(ts: seq<Token>, pos: nat): (r: nat) {
    if pos < |ts| then pos + 1 else pos
  }

  /** A rule's result never moves backwards and never leaves the sequence. */
  predicate Within<T>(r: Parsed<T>, pos: nat, n: nat) {
    r.Ok? ==> pos <= r.value.next <= n
  }

  /** A rule's result consumed at least one token. */
  predicate Consumes<T>(r: Parsed<T>, pos: nat, n: nat) {
    r.Ok? ==> pos < r.value.next <= n
  }

  predicate IsCompareOp(k: TokenKind) {
    k == Equals || k == NotEquals || k == MoreOrEq || k == LessOrEq || k == Less || k == More
  }

  predicate IsMultiplicative(k: TokenKind) {
    k == Mult || k == Div || k == IntDiv || k == Modulo
  }

  predicate IsAdditive(k: TokenKind) {
    k == Plus || k == Minus
  }

  predicate IsConnective(k: TokenKind) {
    k == And || k == Or
  }

  predicate IsCastType(k: TokenKind) {
    k == CastInt || k == CastString || k == CastFloat || k == CastBool
  }

  /** The token kinds `statement` dispatches on; any other kind yields an
      empty statement. */
  predicate StartsStatement(k: TokenKind) {
    k == VariableDecl || k == Identifier || k == IfKw || k == WhileKw
    || k == PrintKw || k == FunctionKw || k == ReturnKw || k == ImportKw
  }

  /** The operator token of every initialiser in a declaration. */
  const AssignToken := Token(AssignOp, "=")

  /** The condition else_statement gives a bare `else` (the literal of
      Values::TRUE, spelled as the lexer spells the keyword). */
  const TrueLiteral := Token(Boolean, "True")

  /** Every Compound reached through statement bodies carries `inFunc`,
      except that a function's block and what it contains carry true. */
  predicate BlocksFlagged(n: Node, inFunc: bool) {
    match n
    case Compound(f, ch) => f == inFunc && forall i | 0 <= i < |ch| :: BlocksFlagged(ch[i], inFunc)
    case IfCondition(_, s, elses) =>
      BlocksFlagged(s, inFunc) && forall i | 0 <= i < |elses| :: BlocksFlagged(elses[i], inFunc)
    case WhileLoop(_, s) => BlocksFlagged(s, inFunc)
    case FunctionInit(_, _, block) => BlocksFlagged(block, true)
    case _ => true
  }

  /** Initialisers paired with names: the i-th is an Assign to the i-th name. */
  predicate PairsWith(assigns: seq<Node>, names: seq<Token>) {
    |assigns| <= |names|
    && forall i | 0 <= i < |assigns| ::
         assigns[i].Assign? && assigns[i].left == NewVariable(names[i]) && assigns[i].op == AssignToken
  }

  /** Appending a flagged node to flagged nodes keeps them all flagged. */
  lemma FlaggedAppend(ns: seq<Node>, n: Node, inFunc: bool)
    requires BlocksFlagged(n, inFunc)
    ensures (forall i | 0 <= i < |ns| :: BlocksFlagged(ns[i], inFunc)) ==>
              forall i | 0 <= i < |ns + [n]| :: BlocksFlagged((ns + [n])[i], inFunc)
  {
  }

  lemma FlaggedOne(n: Node, inFunc: bool)
    requires BlocksFlagged(n, inFunc)
    ensures forall i | 0 <= i < |[n]| :: BlocksFlagged([n][i], inFunc)
  {
  }

  // ---------------------------------------------------------------------
  // Tokens

  /** eat: advance iff the current token has the expected kind. */
  function Eat(ts: seq<Token>, pos: nat, kind: TokenKind): (r: Result<nat, ParseError>)
    requires pos <= |ts|
    ensures r.Ok? <==> At(ts, pos).kind == kind
    ensures r.Ok? ==> r.value <= |ts| && (kind != EndOfFile ==> r.value == pos + 1)
    ensures r.Err? ==> r.error == SyntaxError(At(ts, pos))
  {
    if At(ts, pos).kind == kind then Ok(Next(ts, pos)) else Err(SyntaxError(At(ts, pos)))
  }

  /** variable: an identifier becomes a Variable node. */
  function VariableName(ts: seq<Token>, pos: nat): (r: Parsed<Node>)
    requires pos <= |ts|
    ensures r.Ok? <==> At(ts, pos).kind == Identifier
    ensures r.Ok? ==> r.value == Step(NewVariable(At(ts, pos)), pos + 1)
  {
    var t := At(ts, pos);
    var p :- Eat(ts, pos, Identifier);
    Ok(Step(NewVariable(t), p))
  }

  // ---------------------------------------------------------------------
  // Declarations

  /** standard_variable_declaration: `a, b, c` with no initialisers. */
  function StandardDeclaration(ts: seq<Token>, pos: nat): (r: Parsed<Node>)
    requires pos <= |ts|
    ensures Consumes(r, pos, |ts|)
    ensures r.Ok? ==> var d := r.value.value;
      d.VariableDeclaration? && |d.variables| >= 1 && d.variables[0] == At(ts, pos) && d.assignments == []
  {
    var t := At(ts, pos);
    var p :- Eat(ts, pos, Identifier);
    var names :- NameLoop(ts, p, [t]);
    Ok(Step(VariableDeclaration(names.value, []), names.next))
  }

  /** The `, name` loop of standard_variable_declaration. */
  function NameLoop(ts: seq<Token>, pos: nat, names: seq<Token>): (r: Parsed<seq<Token>>)
    requires pos <= |ts|
    ensures Within(r, pos, |ts|)
    ensures r.Ok? ==> names <= r.value.value && At(ts, r.value.next).kind != Comma
    decreases |ts| - pos
  {
    if At(ts, pos).kind == Comma then
      var p := Next(ts, pos);
      var v :- VariableName(ts, p);
      NameLoop(ts, v.next, names + [v.value.token])
    else
      Ok(Step(names, pos))
  }

  /** variable_declaration (after `have`): names, then optionally `=` and
      one initialiser per name, the i-th assigned to the i-th name. */
  function Declaration(ts: seq<Token>, pos: nat): (r: Parsed<Node>)
    requires pos <= |ts|
    ensures Within(r, pos, |ts|)
    ensures r.Ok? ==> var d := r.value.value;
      d.VariableDeclaration? && |d.variables| >= 1 && PairsWith(d.assignments, d.variables)
    decreases |ts| - pos, 33
  {
    var decl :- StandardDeclaration(ts, pos);
    if At(ts, decl.next).kind == AssignOp then
      InitializedDeclaration(ts, decl.next, decl.value.variables)
    else
      Ok(decl)
  }

  /** The part of variable_declaration from `=` on: the first initialiser
      goes to the first name, the rest follow in Initializers. */
  function InitializedDeclaration(ts: seq<Token>, pos: nat, names: seq<Token>): (r: Parsed<Node>)
    requires pos <= |ts| && |names| >= 1 && At(ts, pos).kind == AssignOp
    ensures Within(r, pos, |ts|)
    ensures r.Ok? ==> var d := r.value.value;
      d.VariableDeclaration? && d.variables == names && PairsWith(d.assignments, names)
    decreases |ts| - pos, 32
  {
    var p := Next(ts, pos);
    var right :- Expr(ts, p);
    Initializers(ts, right.next, names, [NewAssign(NewVariable(names[0]), AssignToken, right.value)])
  }

  /** The `, initialiser` loop of variable_declaration with the guard the
      author evidently meant: an initialiser without a name is a syntax
      error at the token after the comma. */
  function Initializers(ts: seq<Token>, pos: nat, names: seq<Token>, assigns: seq<Node>): (r: Parsed<Node>)
    requires pos <= |ts|
    ensures Within(r, pos, |ts|)
    ensures r.Ok? ==> var d := r.value.value;
      d.VariableDeclaration? && d.variables == names && assigns <= d.assignments
    ensures r.Ok? && PairsWith(assigns, names) ==> PairsWith(r.value.value.assignments, names)
    decreases |ts| - pos, 31
  {
    if At(ts, pos).kind == Comma then
      var p := Next(ts, pos);
      var i := |assigns|;
      if i >= |names| then
        Err(SyntaxError(At(ts, p)))
      else
        var right :- Expr(ts, p);
        Initializers(ts, right.next, names, assigns + [NewAssign(NewVariable(names[i]), AssignToken, right.value)])
    else
      Ok(Step(VariableDeclaration(names, assigns), pos))
  }

  /** The same loop as written: the guard `i > size` lets `i == size`
      through, and `variables.at(i)` then throws. */
  function InitializersAsWritten(ts: seq<Token>, pos: nat, names: seq<Token>, assigns: seq<Node>): (r: Parsed<Node>)
    requires pos <= |ts|
    ensures Within(r, pos, |ts|)
    decreases |ts| - pos
  {
    if At(ts, pos).kind == Comma then
      var p := Next(ts, pos);
      var i := |assigns|;
      if i > |names| then
        Err(SyntaxError(At(ts, p)))
      else if i >= |names| then
        Err(OutOfRange)
      else
        var right :- Expr(ts, p);
        InitializersAsWritten(ts, right.next, names, assigns + [NewAssign(NewVariable(names[i]), AssignToken, right.value)])
    else
      Ok(Step(VariableDeclaration(names, assigns), pos))
  }

  // ---------------------------------------------------------------------
  // Statements

  /** identifier_statement: a call, an element or plain assignment, or an
      object dive. The Assign's operator token is the token that followed
      the name (`[` for an element assignment). */
  function IdentifierStatement(ts: seq<Token>, pos: nat): (r: Parsed<Node>)
    requires pos <= |ts|
    ensures Consumes(r, pos, |ts|)
    ensures r.Ok? ==> r.value.value.Assign? || r.value.value.FunctionCall? || r.value.value.ObjectDive?
    ensures r.Ok? && r.value.value.Assign? ==> r.value.value.op == At(ts, pos + 1)
    decreases |ts| - pos, 34
  {
    var left :- VariableName(ts, pos);
    var t := At(ts, left.next);
    if t.kind == LParen then
      CallChain(ts, left.next, left.value)
    else
      var target :- if t.kind == LSquared then ArrayAccessChain(ts, left.next, left.value) else Ok(left);
      if t.kind == Colon then
        DiveChain(ts, target.next, target.value)
      else
        var p :- Eat(ts, target.next, AssignOp);
        var right :- Expr(ts, p);
        Ok(Step(NewAssign(target.value, t, right.value), right.next))
  }

  /** if_statement: `if (cond) { ... }` with no else branches yet. */
  function IfStatement(ts: seq<Token>, pos: nat, inFunc: bool): (r: Parsed<Node>)
    requires pos <= |ts|
    ensures Consumes(r, pos, |ts|)
    ensures r.Ok? ==> r.value.value.IfCondition? && r.value.value.elses == []
    ensures r.Ok? ==> BlocksFlagged(r.value.value, inFunc)
    decreases |ts| - pos, 30
  {
    var p1 :- Eat(ts, pos, IfKw);
    var p2 :- Eat(ts, p1, LParen);
    var cond :- Expr(ts, p2);
    var p3 :- Eat(ts, cond.next, RParen);
    var body :- CompoundStatement(ts, p3, inFunc);
    Ok(Step(IfCondition(cond.value, body.value, []), body.next))
  }

  /** else_statement: `else if ...`, or `else { ... }` with a True condition. */
  function ElseStatement(ts: seq<Token>, pos: nat, inFunc: bool): (r: Parsed<Node>)
    requires pos <= |ts|
    ensures Consumes(r, pos, |ts|)
    ensures r.Ok? ==> r.value.value.IfCondition? && BlocksFlagged(r.value.value, inFunc)
    decreases |ts| - pos, 35
  {
    var p :- Eat(ts, pos, ElseKw);
    var t := At(ts, p);
    if t.kind == IfKw then
      IfStatement(ts, p, inFunc)
    else if t.kind == LCurly then
      var body :- CompoundStatement(ts, p, inFunc);
      Ok(Step(IfCondition(NewValue(TrueLiteral), body.value, []), body.next))
    else
      Err(FallsOffEnd(t))
  }

  /** The `while (ELSE)` loop of `statement`, collecting the else branches. */
  function ElseLoop(ts: seq<Token>, pos: nat, inFunc: bool, elses: seq<Node>): (r: Parsed<seq<Node>>)
    requires pos <= |ts|
    ensures Within(r, pos, |ts|)
    ensures r.Ok? ==> elses <= r.value.value && At(ts, r.value.next).kind != ElseKw
    ensures r.Ok? && (forall i | 0 <= i < |elses| :: BlocksFlagged(elses[i], inFunc)) ==>
              forall i | 0 <= i < |r.value.value| :: BlocksFlagged(r.value.value[i], inFunc)
    decreases |ts| - pos, 36
  {
    if At(ts, pos).kind == ElseKw then
      var e :- ElseStatement(ts, pos, inFunc);
      FlaggedAppend(elses, e.value, inFunc);
      ElseLoop(ts, e.next, inFunc, elses + [e.value])
    else
      Ok(Step(elses, pos))
  }

  /** while_loop_statement. */
  function WhileStatement(ts: seq<Token>, pos: nat, inFunc: bool): (r: Parsed<Node>)
    requires pos <= |ts|
    ensures Consumes(r, pos, |ts|)
    ensures r.Ok? ==> r.value.value.WhileLoop? && BlocksFlagged(r.value.value, inFunc)
    decreases |ts| - pos, 30
  {
    var p1 :- Eat(ts, pos, WhileKw);
    var p2 :- Eat(ts, p1, LParen);
    var cond :- Expr(ts, p2);
    var p3 :- Eat(ts, cond.next, RParen);
    var body :- CompoundStatement(ts, p3, inFunc);
    Ok(Step(WhileLoop(cond.value, body.value), body.next))
  }

  /** print_statement: `print (expr)`. */
  function PrintStatement(ts: seq<Token>, pos: nat): (r: Parsed<Node>)
    requires pos <= |ts|
    ensures Consumes(r, pos, |ts|)
    ensures r.Ok? ==> r.value.value.Print?
    decreases |ts| - pos, 30
  {
    var p1 :- Eat(ts, pos, PrintKw);
    var p2 :- Eat(ts, p1, LParen);
    var e :- Expr(ts, p2);
    var p3 :- Eat(ts, e.next, RParen);
    Ok(Step(Print(e.value), p3))
  }

  /** The optional parameter list of function_init_statement: NULL (None)
      unless an identifier follows `(`. */
  function Parameters(ts: seq<Token>, pos: nat): (r: Parsed<Option<Node>>)
    requires pos <= |ts|
    ensures Within(r, pos, |ts|)
    ensures r.Ok? ==> (r.value.value.None? <==> At(ts, pos).kind != Identifier)
  {
    if At(ts, pos).kind == Identifier then
      var d :- StandardDeclaration(ts, pos);
      Ok(Step(Some(d.value), d.next))
    else
      Ok(Step(None, pos))
  }

  /** `(params)` in function_init_statement. */
  function ParameterList(ts: seq<Token>, pos: nat): (r: Parsed<Option<Node>>)
    requires pos <= |ts|
    ensures Consumes(r, pos, |ts|)
    ensures r.Ok? ==> (r.value.value.None? <==> At(ts, pos + 1).kind != Identifier)
  {
    var p1 :- Eat(ts, pos, LParen);
    var params :- Parameters(ts, p1);
    var p2 :- Eat(ts, params.next, RParen);
    Ok(Step(params.value, p2))
  }

  /** The head of function_init_statement, `func name (params)`: the
      function's name and its optional parameter declaration. */
  function FunctionHead(ts: seq<Token>, pos: nat): (r: Parsed<(string, Option<Node>)>)
    requires pos <= |ts|
    ensures Consumes(r, pos, |ts|)
    ensures r.Ok? ==> r.value.value.0 == At(ts, pos + 1).text
  {
    var p1 :- Eat(ts, pos, FunctionKw);
    var name := At(ts, p1).text;
    var p2 :- Eat(ts, p1, Identifier);
    var params :- ParameterList(ts, p2);
    Ok(Step((name, params.value), params.next))
  }

  /** function_init_statement: `func name (params) { ... }`; the block is
      parsed as inside a function whatever the enclosing flag. */
  function FunctionInitStatement(ts: seq<Token>, pos: nat): (r: Parsed<Node>)
    requires pos <= |ts|
    ensures Consumes(r, pos, |ts|)
    ensures r.Ok? ==> var f := r.value.value;
      f.FunctionInit? && f.funcName == At(ts, pos + 1).text
      && f.block.Compound? && f.block.insideFunc && BlocksFlagged(f.block, true)
    decreases |ts| - pos, 30
  {
    var head :- FunctionHead(ts, pos);
    var block :- CompoundStatement(ts, head.next, true);
    Ok(Step(FunctionInit(head.value.0, head.value.1, block.value), block.next))
  }

  /** return_statement: the `return` token is the node's token. */
  function ReturnStatement(ts: seq<Token>, pos: nat): (r: Parsed<Node>)
    requires pos <= |ts|
    ensures Consumes(r, pos, |ts|)
    ensures r.Ok? ==> r.value.value.Return? && r.value.value.token == At(ts, pos)
    decreases |ts| - pos, 30
  {
    var t := At(ts, pos);
    var p :- Eat(ts, pos, ReturnKw);
    var e :- Expr(ts, p);
    Ok(Step(NewReturn(t, e.value), e.next))
  }

  /** import_statement: `import "path" as name` or `import lib as name`. */
  function ImportStatement(ts: seq<Token>, pos: nat): (r: Parsed<Node>)
    requires pos <= |ts|
    ensures Consumes(r, pos, |ts|)
    ensures r.Ok? ==> var path := At(ts, pos + 1);
      (path.kind == String || path.kind == BuiltInLib)
      && r.value == Step(NewImport(path, At(ts, pos + 3).text), pos + 4)
  {
    var p1 :- Eat(ts, pos, ImportKw);
    var path := At(ts, p1);
    var p2 :- if path.kind == String || path.kind == BuiltInLib then Eat(ts, p1, path.kind)
              else Err(SyntaxError(path));
    var p3 :- Eat(ts, p2, AsKw);
    var name := At(ts, p3).text;
    var p4 :- Eat(ts, p3, Identifier);
    Ok(Step(NewImport(path, name), p4))
  }

  /** The `if` case of statement: the if statement, then its else
      branches. */
  function IfWithElses(ts: seq<Token>, pos: nat, inFunc: bool): (r: Parsed<Node>)
    requires pos <= |ts|
    ensures Consumes(r, pos, |ts|)
    ensures r.Ok? ==> r.value.value.IfCondition? && BlocksFlagged(r.value.value, inFunc)
    decreases |ts| - pos, 37
  {
    var cond :- IfStatement(ts, pos, inFunc);
    var elses :- ElseLoop(ts, cond.next, inFunc, []);
    Ok(Step(cond.value.(elses := elses.value), elses.next))
  }

  /** statement: dispatch on the current token; anything that starts no
      statement is an empty statement that consumes nothing. */
  function Statement(ts: seq<Token>, pos: nat, inFunc: bool): (r: Parsed<Node>)
    requires pos <= |ts|
    ensures Within(r, pos, |ts|)
    ensures r.Ok? ==> BlocksFlagged(r.value.value, inFunc)
    ensures !StartsStatement(At(ts, pos).kind) ==> r == Ok(Step(NoOperator, pos))
    ensures StartsStatement(At(ts, pos).kind) && r.Ok? ==> pos < r.value.next
    decreases |ts| - pos, 39
  {
    if !StartsStatement(At(ts, pos).kind) then Ok(Step(NoOperator, pos))
    else KeywordStatement(ts, pos, inFunc)
  }

  /** The branches of statement for the tokens that start one. */
  function KeywordStatement(ts: seq<Token>, pos: nat, inFunc: bool): (r: Parsed<Node>)
    requires pos <= |ts| && StartsStatement(At(ts, pos).kind)
    ensures Consumes(r, pos, |ts|)
    ensures r.Ok? ==> BlocksFlagged(r.value.value, inFunc)
    decreases |ts| - pos, 38
  {
    match At(ts, pos).kind
    case VariableDecl => Declaration(ts, Next(ts, pos))
    case Identifier => IdentifierStatement(ts, pos)
    case IfKw => IfWithElses(ts, pos, inFunc)
    case WhileKw => WhileStatement(ts, pos, inFunc)
    case PrintKw => PrintStatement(ts, pos)
    case FunctionKw => FunctionInitStatement(ts, pos)
    case ReturnKw => ReturnStatement(ts, pos)
    case ImportKw => ImportStatement(ts, pos)
  }

  /** statement_list: one statement, then one more after each `;`. */
  function StatementList(ts: seq<Token>, pos: nat, inFunc: bool): (r: Parsed<seq<Node>>)
    requires pos <= |ts|
    ensures Within(r, pos, |ts|)
    ensures r.Ok? ==> |r.value.value| >= 1 && At(ts, r.value.next).kind != Semicolon
    ensures r.Ok? ==> forall i | 0 <= i < |r.value.value| :: BlocksFlagged(r.value.value[i], inFunc)
    decreases |ts| - pos, 40
  {
    var first :- Statement(ts, pos, inFunc);
    FlaggedOne(first.value, inFunc);
    StatementLoop(ts, first.next, inFunc, [first.value])
  }

  /** The `while (SEMICOLON)` loop of statement_list. */
  function StatementLoop(ts: seq<Token>, pos: nat, inFunc: bool, nodes: seq<Node>): (r: Parsed<seq<Node>>)
    requires pos <= |ts|
    ensures Within(r, pos, |ts|)
    ensures r.Ok? ==> nodes <= r.value.value && At(ts, r.value.next).kind != Semicolon
    ensures r.Ok? && (forall i | 0 <= i < |nodes| :: BlocksFlagged(nodes[i], inFunc)) ==>
              forall i | 0 <= i < |r.value.value| :: BlocksFlagged(r.value.value[i], inFunc)
    decreases |ts| - pos, 38
  {
    if At(ts, pos).kind == Semicolon then
      var p := Next(ts, pos);
      var s :- Statement(ts, p, inFunc);
      FlaggedAppend(nodes, s.value, inFunc);
      StatementLoop(ts, s.next, inFunc, nodes + [s.value])
    else
      Ok(Step(nodes, pos))
  }

  /** compound_statement: `{ statement_list }`, flagged with `inFunc`. */
  function CompoundStatement(ts: seq<Token>, pos: nat, inFunc: bool): (r: Parsed<Node>)
    requires pos <= |ts|
    ensures Consumes(r, pos, |ts|)
    ensures r.Ok? ==> var c := r.value.value;
      c.Compound? && c.insideFunc == inFunc && |c.children| >= 1 && BlocksFlagged(c, inFunc)
    decreases |ts| - pos, 30
  {
    var p1 :- Eat(ts, pos, LCurly);
    var nodes :- StatementList(ts, p1, inFunc);
    var p2 :- Eat(ts, nodes.next, RCurly);
    Ok(Step(NewCompound(inFunc, nodes.value), p2))
  }

  /** parse: the top-level statement list, which must end the input. */
  function Parse(ts: seq<Token>, pos: nat, inFunc: bool): (r: Result<Node, ParseError>)
    requires pos <= |ts|
    ensures r.Ok? ==> r.value.Compound? && r.value.insideFunc == inFunc && |r.value.children| >= 1
    ensures r.Ok? ==> BlocksFlagged(r.value, inFunc)
    ensures StatementList(ts, pos, inFunc).Ok? ==>
              (r.Ok? <==> At(ts, StatementList(ts, pos, inFunc).value.next).kind == EndOfFile)
  {
    var list :- StatementList(ts, pos, inFunc);
    if At(ts, list.next).kind != EndOfFile then
      Err(SyntaxError(At(ts, list.next)))
    else
      Ok(NewCompound(inFunc, list.value))
  }

  // ---------------------------------------------------------------------
  // Expressions

  /** collection: `ending` at once gives no items; otherwise comma-separated
      expressions; either way the `ending` token is consumed. */
  function Collection(ts: seq<Token>, pos: nat, ending: TokenKind): (r: Parsed<seq<Node>>)
    requires pos <= |ts|
    ensures Within(r, pos, |ts|)
    ensures At(ts, pos).kind == ending && ending != EndOfFile ==> r == Ok(Step([], pos + 1))
    ensures At(ts, pos).kind != ending && r.Ok? ==> |r.value.value| >= 1
    decreases |ts| - pos, 21
  {
    if At(ts, pos).kind != ending then
      var e :- Expr(ts, pos);
      CollectionLoop(ts, e.next, ending, [e.value])
    else
      Ok(Step([], Next(ts, pos)))
  }

  /** The `while (COMMA)` loop of collection, followed by `eat(ending)`. */
  function CollectionLoop(ts: seq<Token>, pos: nat, ending: TokenKind, items: seq<Node>): (r: Parsed<seq<Node>>)
    requires pos <= |ts|
    ensures Within(r, pos, |ts|)
    ensures r.Ok? ==> items <= r.value.value
    ensures r.Ok? && ending != EndOfFile ==> 0 < r.value.next && At(ts, r.value.next - 1).kind == ending
    decreases |ts| - pos, 5
  {
    if At(ts, pos).kind == Comma then
      var p := Next(ts, pos);
      var e :- Expr(ts, p);
      CollectionLoop(ts, e.next, ending, items + [e.value])
    else
      var p :- Eat(ts, pos, ending);
      Ok(Step(items, p))
  }

  /** array_init: `[ items ]`. */
  function ArrayLiteral(ts: seq<Token>, pos: nat): (r: Parsed<Node>)
    requires pos <= |ts|
    ensures Consumes(r, pos, |ts|)
    ensures r.Ok? ==> r.value.value.ArrayInit?
    decreases |ts| - pos, 8
  {
    var p :- Eat(ts, pos, LSquared);
    var items :- Collection(ts, p, RSquared);
    Ok(Step(ArrayInit(items.value), items.next))
  }

  /** One `[ index ]` of array_access. */
  function Subscript(ts: seq<Token>, pos: nat): (r: Parsed<Node>)
    requires pos <= |ts|
    ensures Consumes(r, pos, |ts|)
    decreases |ts| - pos, 2
  {
    var p1 :- Eat(ts, pos, LSquared);
    var index :- Expr(ts, p1);
    var p2 :- Eat(ts, index.next, RSquared);
    Ok(Step(index.value, p2))
  }

  /** array_access: the first subscript of `base`, then any further ones. */
  function ArrayAccessChain(ts: seq<Token>, pos: nat, base: Node): (r: Parsed<Node>)
    requires pos <= |ts|
    ensures Consumes(r, pos, |ts|)
    ensures r.Ok? ==> r.value.value.ArrayAccess?
    ensures r.Ok? ==> At(ts, r.value.next).kind != LSquared
    decreases |ts| - pos, 4
  {
    var index :- Subscript(ts, pos);
    AccessLoop(ts, index.next, ArrayAccess(base, index.value))
  }

  /** The loop of array_access: each subscript wraps what came before. */
  function AccessLoop(ts: seq<Token>, pos: nat, node: Node): (r: Parsed<Node>)
    requires pos <= |ts|
    ensures Within(r, pos, |ts|)
    ensures r.Ok? ==> At(ts, r.value.next).kind != LSquared
    ensures r.Ok? && node.ArrayAccess? ==> r.value.value.ArrayAccess?
    decreases |ts| - pos, 3
  {
    if At(ts, pos).kind == LSquared then
      var index :- Subscript(ts, pos);
      AccessLoop(ts, index.next, ArrayAccess(node, index.value))
    else
      Ok(Step(node, pos))
  }

  /** function_call: the first argument list of `callee`, then any further
      ones, each call wrapping the previous. */
  function CallChain(ts: seq<Token>, pos: nat, callee: Node): (r: Parsed<Node>)
    requires pos <= |ts|
    ensures Consumes(r, pos, |ts|)
    ensures r.Ok? ==> r.value.value.FunctionCall? && At(ts, r.value.next).kind != LParen
    decreases |ts| - pos, 4
  {
    var p :- Eat(ts, pos, LParen);
    var args :- Collection(ts, p, RParen);
    CallLoop(ts, args.next, FunctionCall(callee, args.value))
  }

  /** The loop of function_call. */
  function CallLoop(ts: seq<Token>, pos: nat, node: Node): (r: Parsed<Node>)
    requires pos <= |ts|
    ensures Within(r, pos, |ts|)
    ensures r.Ok? ==> At(ts, r.value.next).kind != LParen
    ensures r.Ok? && node.FunctionCall? ==> r.value.value.FunctionCall?
    decreases |ts| - pos, 3
  {
    if At(ts, pos).kind == LParen then
      var p := Next(ts, pos);
      var args :- Collection(ts, p, RParen);
      CallLoop(ts, args.next, FunctionCall(node, args.value))
    else
      Ok(Step(node, pos))
  }

  /** object_dive: `: child`, repeated, each dive wrapping the previous. */
  function DiveChain(ts: seq<Token>, pos: nat, parent: Node): (r: Parsed<Node>)
    requires pos <= |ts|
    ensures Consumes(r, pos, |ts|)
    ensures r.Ok? ==> r.value.value.ObjectDive? && At(ts, r.value.next).kind != Colon
    decreases |ts| - pos
  {
    var colon := At(ts, pos);
    var p :- Eat(ts, pos, Colon);
    var child :- VariableName(ts, p);
    var dive := NewObjectDive(parent, colon, child.value.token);
    if At(ts, child.next).kind == Colon then
      DiveChain(ts, child.next, dive)
    else
      Ok(Step(dive, child.next))
  }

  /** factor: unary operators, literals, parentheses, array literals and
      names with their postfix chains. A factor always consumes a token. */
  function Factor(ts: seq<Token>, pos: nat): (r: Parsed<Node>)
    requires pos <= |ts|
    ensures Consumes(r, pos, |ts|)
    decreases |ts| - pos, 10
  {
    var t := At(ts, pos);
    if IsAdditive(t.kind) then
      var e :- Factor(ts, Next(ts, pos));
      Ok(Step(NewUnaryOperator(t, e.value), e.next))
    else if t.kind == Not then
      var e :- Factor(ts, Next(ts, pos));
      Ok(Step(NewNegation(t, e.value), e.next))
    else if t.kind == Float || t.kind == String || t.kind == Boolean || t.kind == NoneValue then
      Ok(Step(NewValue(t), Next(ts, pos)))
    else if t.kind == LParen then
      var e :- Expr(ts, Next(ts, pos));
      var p :- Eat(ts, e.next, RParen);
      Ok(Step(e.value, p))
    else if t.kind == LSquared then
      var a :- ArrayLiteral(ts, pos);
      if At(ts, a.next).kind == LSquared then ArrayAccessChain(ts, a.next, a.value) else Ok(a)
    else
      var v :- VariableName(ts, pos);
      var k := At(ts, v.next).kind;
      if k == LSquared then ArrayAccessChain(ts, v.next, v.value)
      else if k == LParen then CallChain(ts, v.next, v.value)
      else if k == Colon then DiveChain(ts, v.next, v.value)
      else Ok(v)
  }

  /** cast: a factor, then at most one `as <type>`; any other token after
      `as` is a syntax error. */
  function CastFactor(ts: seq<Token>, pos: nat): (r: Parsed<Node>)
    requires pos <= |ts|
    ensures Consumes(r, pos, |ts|)
    decreases |ts| - pos, 12
  {
    var f :- Factor(ts, pos);
    if At(ts, f.next).kind == AsKw then
      var p1 := Next(ts, f.next);
      var t := At(ts, p1);
      if IsCastType(t.kind) then
        Ok(Step(NewCastValue(f.value, t), Next(ts, p1)))
      else
        Err(SyntaxError(t))
    else
      Ok(f)
  }

  /** term: casts joined by `* / // %`, nesting to the left; the right
      operand of each operator is a single factor. */
  function Term(ts: seq<Token>, pos: nat): (r: Parsed<Node>)
    requires pos <= |ts|
    ensures Consumes(r, pos, |ts|)
    ensures r.Ok? ==> !IsMultiplicative(At(ts, r.value.next).kind)
    decreases |ts| - pos, 14
  {
    var c :- CastFactor(ts, pos);
    TermLoop(ts, c.next, c.value)
  }

  function TermLoop(ts: seq<Token>, pos: nat, node: Node): (r: Parsed<Node>)
    requires pos <= |ts|
    ensures Within(r, pos, |ts|)
    ensures r.Ok? ==> !IsMultiplicative(At(ts, r.value.next).kind)
    decreases |ts| - pos, 13
  {
    var op := At(ts, pos);
    if IsMultiplicative(op.kind) then
      var p := Next(ts, pos);
      var f :- Factor(ts, p);
      TermLoop(ts, f.next, NewBinaryOperator(node, op, f.value))
    else
      Ok(Step(node, pos))
  }

  /** sub_add: terms joined by `+ -`, nesting to the left. */
  function SubAdd(ts: seq<Token>, pos: nat): (r: Parsed<Node>)
    requires pos <= |ts|
    ensures Consumes(r, pos, |ts|)
    ensures r.Ok? ==> !IsAdditive(At(ts, r.value.next).kind)
    decreases |ts| - pos, 16
  {
    var t :- Term(ts, pos);
    SubAddLoop(ts, t.next, t.value)
  }

  function SubAddLoop(ts: seq<Token>, pos: nat, node: Node): (r: Parsed<Node>)
    requires pos <= |ts|
    ensures Within(r, pos, |ts|)
    ensures r.Ok? ==> !IsAdditive(At(ts, r.value.next).kind)
    decreases |ts| - pos, 15
  {
    var op := At(ts, pos);
    if IsAdditive(op.kind) then
      var p := Next(ts, pos);
      var t :- Term(ts, p);
      SubAddLoop(ts, t.next, NewBinaryOperator(node, op, t.value))
    else
      Ok(Step(node, pos))
  }

  /** eq_not_eq: a sum, or a Compare of sums. Because each right-hand side
      is a whole `expr`, which swallows any further comparison, the loop
      runs once: a Compare built here has two comparables and one operator. */
  function EqNotEq(ts: seq<Token>, pos: nat): (r: Parsed<Node>)
    requires pos <= |ts|
    ensures Consumes(r, pos, |ts|)
    ensures r.Ok? ==> !IsCompareOp(At(ts, r.value.next).kind)
    ensures r.Ok? ==>
              r == SubAdd(ts, pos)
              || (r.value.value.Compare? && |r.value.value.comparables| == 2 && |r.value.value.operators| == 1)
    decreases |ts| - pos, 18
  {
    var s :- SubAdd(ts, pos);
    if IsCompareOp(At(ts, s.next).kind) then
      var c :- CompareLoop(ts, s.next, [s.value], []);
      Ok(Step(Compare(c.value.0, c.value.1), c.next))
    else
      Ok(s)
  }

  /** The comparison loop of eq_not_eq: every operator adds one comparable. */
  function CompareLoop(ts: seq<Token>, pos: nat, cs: seq<Node>, ops: seq<Token>): (r: Parsed<(seq<Node>, seq<Token>)>)
    requires pos <= |ts|
    ensures Within(r, pos, |ts|)
    ensures r.Ok? ==> !IsCompareOp(At(ts, r.value.next).kind)
    ensures r.Ok? ==> |r.value.value.0| - |r.value.value.1| == |cs| - |ops|
    ensures r.Ok? && !IsCompareOp(At(ts, pos).kind) ==> r.value.value == (cs, ops)
    ensures r.Ok? && IsCompareOp(At(ts, pos).kind) ==> |r.value.value.1| == |ops| + 1
    decreases |ts| - pos, 17
  {
    var op := At(ts, pos);
    if IsCompareOp(op.kind) then
      var p := Next(ts, pos);
      var e :- Expr(ts, p);
      CompareLoop(ts, e.next, cs + [e.value], ops + [op])
    else
      Ok(Step((cs, ops), pos))
  }

  /** expr: comparisons joined by `and`/`or`. The right operand is a whole
      `expr`, so the connectives nest to the right. */
  function Expr(ts: seq<Token>, pos: nat): (r: Parsed<Node>)
    requires pos <= |ts|
    ensures Consumes(r, pos, |ts|)
    ensures r.Ok? ==> !IsConnective(At(ts, r.value.next).kind) && !IsCompareOp(At(ts, r.value.next).kind)
    decreases |ts| - pos, 20
  {
    var c :- EqNotEq(ts, pos);
    ExprLoop(ts, c.next, c.value)
  }

  function ExprLoop(ts: seq<Token>, pos: nat, node: Node): (r: Parsed<Node>)
    requires pos <= |ts|
    ensures Within(r, pos, |ts|)
    ensures r.Ok? ==> !IsConnective(At(ts, r.value.next).kind)
    ensures r.Ok? && !IsCompareOp(At(ts, pos).kind) ==> !IsCompareOp(At(ts, r.value.next).kind)
    decreases |ts| - pos, 19
  {
    var op := At(ts, pos);
    if IsConnective(op.kind) then
      var p := Next(ts, pos);
      var right :- Expr(ts, p);
      ExprLoop(ts, right.next, NewDoubleCondition(node, op, right.value))
    else
      Ok(Step(node, pos))
  }
}
