/** The recursive-descent parser of parser/Parser.cpp: a class over the
    token sequence whose methods advance the shared position as the C++
    rules advance `current_token`, toggle `insideFunc` as function
    definitions open and close, and collect lists in `while` loops. Each
    method is proved to agree with the rule of the same name in module
    Grammar, where the properties of the grammar are stated. */
module Parsing {
  import opened Wrappers
  import opened Tokens
  import opened Ast
  import opened Grammar

  /** A method's outcome `r`, with the position `p` it left behind, is the
      one the grammar function `s` describes; after an error the position
      no longer matters, because the C++ error ends the process. */
  predicate Agrees<T(==)>(r: Result<T, ParseError>, s: Parsed<T>, p: nat) {
    match s
    case Ok(step) => r == Ok(step.value) && p == step.next
    case Err(e) => r == Err(e)
  }

  class Parser {
    /** What the lexer would hand out, one token per `get_next_token`. */
    const tokens: seq<Token>
    /** The position of `current_token` in `tokens`. */
    var pos: nat
    var insideFunc: bool

    /** Parser::Parser: the first token is current and no function is open. */
    constructor(tokens: seq<Token>)
      ensures this.tokens == tokens && pos == 0 && !insideFunc
    {
      this.tokens := tokens;
      pos := 0;
      insideFunc := false;
    }

    function CurrentToken(): (r: Token)
      reads this
    {
      At(tokens, pos)
    }

    /** `current_token = lexer->get_next_token()`. */
    method Advance()
      requires pos <= |tokens|
      modifies this
      ensures pos == Next(tokens, old(pos)) && insideFunc == old(insideFunc)
    {
      if pos < |tokens| {
        pos := pos + 1;
      }
    }

    /** eat. */
    method Eat(kind: TokenKind) returns (r: Result<(), ParseError>)
      requires pos <= |tokens|
      modifies this
      ensures insideFunc == old(insideFunc)
      ensures match Grammar.Eat(tokens, old(pos), kind)
              case Ok(p) => r.Ok? && pos == p
              case Err(e) => r == Err(e)
    {
      if CurrentToken().kind == kind {
        Advance();
        r := Ok(());
      } else {
        r := Err(SyntaxError(CurrentToken()));
      }
    }

    /** variable. */
    method VariableName() returns (r: Result<Node, ParseError>)
      requires pos <= |tokens|
      modifies this
      ensures Agrees(r, Grammar.VariableName(tokens, old(pos)), pos)
      ensures insideFunc == old(insideFunc)
    {
      var node := NewVariable(CurrentToken());
      var u :- Eat(Identifier);
      r := Ok(node);
    }

    /** standard_variable_declaration. */
    method StandardDeclaration() returns (r: Result<Node, ParseError>)
      requires pos <= |tokens|
      modifies this
      ensures Agrees(r, Grammar.StandardDeclaration(tokens, old(pos)), pos)
      ensures insideFunc == old(insideFunc)
    {
      var first := CurrentToken();
      var u :- Eat(Identifier);
      var names := [first];
      while CurrentToken().kind == Comma
        invariant old(pos) < pos <= |tokens|
        invariant insideFunc == old(insideFunc)
        invariant Grammar.StandardDeclaration(tokens, old(pos))
                  == (match NameLoop(tokens, pos, names)
                      case Err(e) => Err(e)
                      case Ok(s) => Ok(Step(VariableDeclaration(s.value, []), s.next)))
        decreases |tokens| - pos
      {
        Advance();
        var v :- VariableName();
        names := names + [v.token];
      }
      r := Ok(VariableDeclaration(names, []));
    }

    /** variable_declaration (after `have`), with the corrected guard. */
    method Declaration() returns (r: Result<Node, ParseError>)
      requires pos <= |tokens|
      modifies this
      ensures Agrees(r, Grammar.Declaration(tokens, old(pos)), pos)
      ensures insideFunc == old(insideFunc)
      decreases |tokens| - pos, 33
    {
      var decl :- StandardDeclaration();
      if CurrentToken().kind != AssignOp {
        return Ok(decl);
      }
      r := InitializedDeclaration(decl.variables);
    }

    /** The part of variable_declaration from `=` on. */
    method InitializedDeclaration(names: seq<Token>) returns (r: Result<Node, ParseError>)
      requires pos <= |tokens| && |names| >= 1 && CurrentToken().kind == AssignOp
      modifies this
      ensures Agrees(r, Grammar.InitializedDeclaration(tokens, old(pos), names), pos)
      ensures insideFunc == old(insideFunc)
      decreases |tokens| - pos, 32
    {
      Advance();
      var right :- Expr();
      var assigns := [NewAssign(NewVariable(names[0]), AssignToken, right)];
      var i := 1;
      while CurrentToken().kind == Comma
        invariant old(pos) < pos <= |tokens|
        invariant insideFunc == old(insideFunc)
        invariant i == |assigns|
        invariant Initializers(tokens, pos, names, assigns) == Grammar.InitializedDeclaration(tokens, old(pos), names)
        decreases |tokens| - pos
      {
        Advance();
        if i >= |names| {
          return Err(SyntaxError(CurrentToken()));
        }
        right :- Expr();
        assigns := assigns + [NewAssign(NewVariable(names[i]), AssignToken, right)];
        i := i + 1;
      }
      r := Ok(VariableDeclaration(names, assigns));
    }

    /** identifier_statement. */
    method IdentifierStatement() returns (r: Result<Node, ParseError>)
      requires pos <= |tokens|
      modifies this
      ensures Agrees(r, Grammar.IdentifierStatement(tokens, old(pos)), pos)
      ensures insideFunc == old(insideFunc)
      decreases |tokens| - pos, 34
    {
      var left :- VariableName();
      var token := CurrentToken();
      if token.kind == LParen {
        r := CallChain(left);
        return;
      }
      if token.kind == LSquared {
        left :- ArrayAccessChain(left);
      }
      if token.kind == Colon {
        r := DiveChain(left);
        return;
      }
      var u :- Eat(AssignOp);
      var right :- Expr();
      r := Ok(NewAssign(left, token, right));
    }

    /** if_statement. */
    method IfStatement() returns (r: Result<Node, ParseError>)
      requires pos <= |tokens|
      modifies this
      ensures Agrees(r, Grammar.IfStatement(tokens, old(pos), old(insideFunc)), pos)
      ensures r.Ok? ==> insideFunc == old(insideFunc)
      decreases |tokens| - pos, 30
    {
      var u1 :- Eat(IfKw);
      var u2 :- Eat(LParen);
      var condition :- Expr();
      var u3 :- Eat(RParen);
      var statement :- CompoundStatement();
      r := Ok(IfCondition(condition, statement, []));
    }

    /** else_statement. */
    method ElseStatement() returns (r: Result<Node, ParseError>)
      requires pos <= |tokens|
      modifies this
      ensures Agrees(r, Grammar.ElseStatement(tokens, old(pos), old(insideFunc)), pos)
      ensures r.Ok? ==> insideFunc == old(insideFunc)
      decreases |tokens| - pos, 35
    {
      var u :- Eat(ElseKw);
      if CurrentToken().kind == IfKw {
        r := IfStatement();
      } else if CurrentToken().kind == LCurly {
        var condition := NewValue(TrueLiteral);
        var statement :- CompoundStatement();
        r := Ok(IfCondition(condition, statement, []));
      } else {
        r := Err(FallsOffEnd(CurrentToken()));
      }
    }

    /** while_loop_statement. */
    method WhileStatement() returns (r: Result<Node, ParseError>)
      requires pos <= |tokens|
      modifies this
      ensures Agrees(r, Grammar.WhileStatement(tokens, old(pos), old(insideFunc)), pos)
      ensures r.Ok? ==> insideFunc == old(insideFunc)
      decreases |tokens| - pos, 30
    {
      var u1 :- Eat(WhileKw);
      var u2 :- Eat(LParen);
      var condition :- Expr();
      var u3 :- Eat(RParen);
      var statement :- CompoundStatement();
      r := Ok(WhileLoop(condition, statement));
    }

    /** print_statement. */
    method PrintStatement() returns (r: Result<Node, ParseError>)
      requires pos <= |tokens|
      modifies this
      ensures Agrees(r, Grammar.PrintStatement(tokens, old(pos)), pos)
      ensures insideFunc == old(insideFunc)
      decreases |tokens| - pos, 30
    {
      var u1 :- Eat(PrintKw);
      var u2 :- Eat(LParen);
      var printable :- Expr();
      var u3 :- Eat(RParen);
      r := Ok(Print(printable));
    }

    /** `(params)` in function_init_statement. */
    method ParameterList() returns (r: Result<Option<Node>, ParseError>)
      requires pos <= |tokens|
      modifies this
      ensures Agrees(r, Grammar.ParameterList(tokens, old(pos)), pos)
      ensures insideFunc == old(insideFunc)
    {
      var u1 :- Eat(LParen);
      var params: Option<Node> := None;
      if CurrentToken().kind == Identifier {
        var d :- StandardDeclaration();
        params := Some(d);
      }
      var u2 :- Eat(RParen);
      r := Ok(params);
    }

    /** The head of function_init_statement: name and parameters. */
    method FunctionHead() returns (r: Result<(string, Option<Node>), ParseError>)
      requires pos <= |tokens|
      modifies this
      ensures Agrees(r, Grammar.FunctionHead(tokens, old(pos)), pos)
      ensures insideFunc == old(insideFunc)
    {
      var u1 :- Eat(FunctionKw);
      var name := CurrentToken().text;
      var u2 :- Eat(Identifier);
      var params :- ParameterList();
      r := Ok((name, params));
    }

    /** function_init_statement: the block is parsed with `insideFunc` set,
        and the flag is put back once the outermost function closes. */
    method FunctionInitStatement() returns (r: Result<Node, ParseError>)
      requires pos <= |tokens|
      modifies this
      ensures Agrees(r, Grammar.FunctionInitStatement(tokens, old(pos)), pos)
      ensures r.Ok? ==> insideFunc == old(insideFunc)
      decreases |tokens| - pos, 30
    {
      var head :- FunctionHead();
      var block: Node;
      if insideFunc {
        block :- CompoundStatement();
      } else {
        insideFunc := true;
        block :- CompoundStatement();
        insideFunc := false;
      }
      r := Ok(FunctionInit(head.0, head.1, block));
    }

    /** return_statement. */
    method ReturnStatement() returns (r: Result<Node, ParseError>)
      requires pos <= |tokens|
      modifies this
      ensures Agrees(r, Grammar.ReturnStatement(tokens, old(pos)), pos)
      ensures insideFunc == old(insideFunc)
      decreases |tokens| - pos, 30
    {
      var token := CurrentToken();
      var u :- Eat(ReturnKw);
      var returnable :- Expr();
      r := Ok(NewReturn(token, returnable));
    }

    /** import_statement. */
    method ImportStatement() returns (r: Result<Node, ParseError>)
      requires pos <= |tokens|
      modifies this
      ensures Agrees(r, Grammar.ImportStatement(tokens, old(pos)), pos)
      ensures insideFunc == old(insideFunc)
    {
      var u1 :- Eat(ImportKw);
      var path := CurrentToken();
      if path.kind == String || path.kind == BuiltInLib {
        Advance();
      } else {
        return Err(SyntaxError(path));
      }
      var u2 :- Eat(AsKw);
      var name := CurrentToken().text;
      var u3 :- Eat(Identifier);
      r := Ok(NewImport(path, name));
    }

    /** The `if` case of `statement`: the if statement and its else branches. */
    method IfWithElses() returns (r: Result<Node, ParseError>)
      requires pos <= |tokens| && CurrentToken().kind == IfKw
      modifies this
      ensures Agrees(r, Grammar.IfWithElses(tokens, old(pos), old(insideFunc)), pos)
      ensures r.Ok? ==> insideFunc == old(insideFunc)
      decreases |tokens| - pos, 36
    {
      var cond :- IfStatement();
      ghost var start := pos;
      var elses := [];
      while CurrentToken().kind == ElseKw
        invariant start <= pos <= |tokens|
        invariant insideFunc == old(insideFunc)
        invariant ElseLoop(tokens, pos, insideFunc, elses) == ElseLoop(tokens, start, insideFunc, [])
        decreases |tokens| - pos
      {
        var e :- ElseStatement();
        elses := elses + [e];
      }
      r := Ok(cond.(elses := elses));
    }

    /** statement. */
    method Statement() returns (r: Result<Node, ParseError>)
      requires pos <= |tokens|
      modifies this
      ensures Agrees(r, Grammar.Statement(tokens, old(pos), old(insideFunc)), pos)
      ensures r.Ok? ==> insideFunc == old(insideFunc)
      decreases |tokens| - pos, 39
    {
      if !StartsStatement(CurrentToken().kind) {
        r := Ok(NoOperator);
      } else {
        r := KeywordStatement();
      }
    }

    /** The branches of statement for the tokens that start one. */
    method KeywordStatement() returns (r: Result<Node, ParseError>)
      requires pos <= |tokens| && StartsStatement(CurrentToken().kind)
      modifies this
      ensures Agrees(r, Grammar.KeywordStatement(tokens, old(pos), old(insideFunc)), pos)
      ensures r.Ok? ==> insideFunc == old(insideFunc)
      decreases |tokens| - pos, 38
    {
      match CurrentToken().kind
      case VariableDecl =>
        Advance();
        r := Declaration();
      case Identifier =>
        r := IdentifierStatement();
      case IfKw =>
        r := IfWithElses();
      case WhileKw =>
        r := WhileStatement();
      case PrintKw =>
        r := PrintStatement();
      case FunctionKw =>
        r := FunctionInitStatement();
      case ReturnKw =>
        r := ReturnStatement();
      case ImportKw =>
        r := ImportStatement();
    }

    /** statement_list. */
    method StatementList() returns (r: Result<seq<Node>, ParseError>)
      requires pos <= |tokens|
      modifies this
      ensures Agrees(r, Grammar.StatementList(tokens, old(pos), old(insideFunc)), pos)
      ensures r.Ok? ==> insideFunc == old(insideFunc)
      decreases |tokens| - pos, 40
    {
      var node :- Statement();
      var nodes := [node];
      while CurrentToken().kind == Semicolon
        invariant old(pos) <= pos <= |tokens|
        invariant insideFunc == old(insideFunc)
        invariant StatementLoop(tokens, pos, insideFunc, nodes) == Grammar.StatementList(tokens, old(pos), insideFunc)
        decreases |tokens| - pos
      {
        Advance();
        node :- Statement();
        nodes := nodes + [node];
      }
      r := Ok(nodes);
    }

    /** compound_statement. */
    method CompoundStatement() returns (r: Result<Node, ParseError>)
      requires pos <= |tokens|
      modifies this
      ensures Agrees(r, Grammar.CompoundStatement(tokens, old(pos), old(insideFunc)), pos)
      ensures r.Ok? ==> insideFunc == old(insideFunc)
      decreases |tokens| - pos, 30
    {
      var u1 :- Eat(LCurly);
      var nodes :- StatementList();
      var u2 :- Eat(RCurly);
      r := Ok(NewCompound(insideFunc, nodes));
    }

    /** parse. */
    method Parse() returns (r: Result<Node, ParseError>)
      requires pos <= |tokens|
      modifies this
      ensures r == Grammar.Parse(tokens, old(pos), old(insideFunc))
    {
      var flag := insideFunc;
      var nodes :- StatementList();
      if CurrentToken().kind != EndOfFile {
        return Err(SyntaxError(CurrentToken()));
      }
      r := Ok(NewCompound(flag, nodes));
    }

    /** collection. */
    method Collection(ending: TokenKind) returns (r: Result<seq<Node>, ParseError>)
      requires pos <= |tokens|
      modifies this
      ensures Agrees(r, Grammar.Collection(tokens, old(pos), ending), pos)
      ensures insideFunc == old(insideFunc)
      decreases |tokens| - pos, 21
    {
      if CurrentToken().kind == ending {
        Advance();
        return Ok([]);
      }
      var element :- Expr();
      var items := [element];
      while CurrentToken().kind == Comma
        invariant old(pos) <= pos <= |tokens|
        invariant insideFunc == old(insideFunc)
        invariant CollectionLoop(tokens, pos, ending, items) == Grammar.Collection(tokens, old(pos), ending)
        decreases |tokens| - pos
      {
        Advance();
        element :- Expr();
        items := items + [element];
      }
      var u :- Eat(ending);
      r := Ok(items);
    }

    /** array_init. */
    method ArrayLiteral() returns (r: Result<Node, ParseError>)
      requires pos <= |tokens|
      modifies this
      ensures Agrees(r, Grammar.ArrayLiteral(tokens, old(pos)), pos)
      ensures insideFunc == old(insideFunc)
      decreases |tokens| - pos, 8
    {
      var u :- Eat(LSquared);
      var elements :- Collection(RSquared);
      r := Ok(ArrayInit(elements));
    }

    /** array_access. */
    method ArrayAccessChain(base: Node) returns (r: Result<Node, ParseError>)
      requires pos <= |tokens|
      modifies this
      ensures Agrees(r, Grammar.ArrayAccessChain(tokens, old(pos), base), pos)
      ensures insideFunc == old(insideFunc)
      decreases |tokens| - pos, 4
    {
      var u1 :- Eat(LSquared);
      var index :- Expr();
      var u2 :- Eat(RSquared);
      r := AccessLoop(ArrayAccess(base, index));
    }

    /** The loop of array_access: each further subscript wraps the access
        built so far. */
    method AccessLoop(node: Node) returns (r: Result<Node, ParseError>)
      requires pos <= |tokens|
      modifies this
      ensures Agrees(r, Grammar.AccessLoop(tokens, old(pos), node), pos)
      ensures insideFunc == old(insideFunc)
      decreases |tokens| - pos, 3
    {
      var access := node;
      while CurrentToken().kind == LSquared
        invariant old(pos) <= pos <= |tokens|
        invariant insideFunc == old(insideFunc)
        invariant Grammar.AccessLoop(tokens, pos, access) == Grammar.AccessLoop(tokens, old(pos), node)
        decreases |tokens| - pos
      {
        Advance();
        var index :- Expr();
        var u :- Eat(RSquared);
        access := ArrayAccess(access, index);
      }
      r := Ok(access);
    }

    /** function_call. */
    method CallChain(callee: Node) returns (r: Result<Node, ParseError>)
      requires pos <= |tokens|
      modifies this
      ensures Agrees(r, Grammar.CallChain(tokens, old(pos), callee), pos)
      ensures insideFunc == old(insideFunc)
      decreases |tokens| - pos, 4
    {
      var u :- Eat(LParen);
      var params :- Collection(RParen);
      r := CallLoop(FunctionCall(callee, params));
    }

    /** The loop of function_call: each further argument list calls the
        result of the call before. */
    method CallLoop(node: Node) returns (r: Result<Node, ParseError>)
      requires pos <= |tokens|
      modifies this
      ensures Agrees(r, Grammar.CallLoop(tokens, old(pos), node), pos)
      ensures insideFunc == old(insideFunc)
      decreases |tokens| - pos, 3
    {
      var call := node;
      while CurrentToken().kind == LParen
        invariant old(pos) <= pos <= |tokens|
        invariant insideFunc == old(insideFunc)
        invariant Grammar.CallLoop(tokens, pos, call) == Grammar.CallLoop(tokens, old(pos), node)
        decreases |tokens| - pos
      {
        Advance();
        var params :- Collection(RParen);
        call := FunctionCall(call, params);
      }
      r := Ok(call);
    }

    /** object_dive. */
    method DiveChain(parent: Node) returns (r: Result<Node, ParseError>)
      requires pos <= |tokens|
      modifies this
      ensures Agrees(r, Grammar.DiveChain(tokens, old(pos), parent), pos)
      ensures insideFunc == old(insideFunc)
      decreases |tokens| - pos
    {
      var colon := CurrentToken();
      var u :- Eat(Colon);
      var child :- VariableName();
      var dive := NewObjectDive(parent, colon, child.token);
      if CurrentToken().kind == Colon {
        r := DiveChain(dive);
      } else {
        r := Ok(dive);
      }
    }

    /** factor. */
    method Factor() returns (r: Result<Node, ParseError>)
      requires pos <= |tokens|
      modifies this
      ensures Agrees(r, Grammar.Factor(tokens, old(pos)), pos)
      ensures insideFunc == old(insideFunc)
      decreases |tokens| - pos, 10
    {
      var token := CurrentToken();
      if IsAdditive(token.kind) {
        Advance();
        var e :- Factor();
        r := Ok(NewUnaryOperator(token, e));
      } else if token.kind == Not {
        Advance();
        var e :- Factor();
        r := Ok(NewNegation(token, e));
      } else if token.kind == Float || token.kind == String || token.kind == Boolean || token.kind == NoneValue {
        Advance();
        r := Ok(NewValue(token));
      } else if token.kind == LParen {
        Advance();
        var node :- Expr();
        var u :- Eat(RParen);
        r := Ok(node);
      } else if token.kind == LSquared {
        var node :- ArrayLiteral();
        if CurrentToken().kind == LSquared {
          r := ArrayAccessChain(node);
        } else {
          r := Ok(node);
        }
      } else {
        var node :- VariableName();
        if CurrentToken().kind == LSquared {
          r := ArrayAccessChain(node);
        } else if CurrentToken().kind == LParen {
          r := CallChain(node);
        } else if CurrentToken().kind == Colon {
          r := DiveChain(node);
        } else {
          r := Ok(node);
        }
      }
    }

    /** cast: the C++ `while (AS)` returns or fails in its first round. */
    method CastFactor() returns (r: Result<Node, ParseError>)
      requires pos <= |tokens|
      modifies this
      ensures Agrees(r, Grammar.CastFactor(tokens, old(pos)), pos)
      ensures insideFunc == old(insideFunc)
      decreases |tokens| - pos, 12
    {
      var node :- Factor();
      if CurrentToken().kind == AsKw {
        Advance();
        var castType := CurrentToken();
        if IsCastType(castType.kind) {
          Advance();
          return Ok(NewCastValue(node, castType));
        }
        return Err(SyntaxError(castType));
      }
      r := Ok(node);
    }

    /** term. */
    method Term() returns (r: Result<Node, ParseError>)
      requires pos <= |tokens|
      modifies this
      ensures Agrees(r, Grammar.Term(tokens, old(pos)), pos)
      ensures insideFunc == old(insideFunc)
      decreases |tokens| - pos, 14
    {
      var node :- CastFactor();
      while IsMultiplicative(CurrentToken().kind)
        invariant old(pos) < pos <= |tokens|
        invariant insideFunc == old(insideFunc)
        invariant TermLoop(tokens, pos, node) == Grammar.Term(tokens, old(pos))
        decreases |tokens| - pos
      {
        var token := CurrentToken();
        Advance();
        var right :- Factor();
        node := NewBinaryOperator(node, token, right);
      }
      r := Ok(node);
    }

    /** sub_add. */
    method SubAdd() returns (r: Result<Node, ParseError>)
      requires pos <= |tokens|
      modifies this
      ensures Agrees(r, Grammar.SubAdd(tokens, old(pos)), pos)
      ensures insideFunc == old(insideFunc)
      decreases |tokens| - pos, 16
    {
      var node :- Term();
      while IsAdditive(CurrentToken().kind)
        invariant old(pos) < pos <= |tokens|
        invariant insideFunc == old(insideFunc)
        invariant SubAddLoop(tokens, pos, node) == Grammar.SubAdd(tokens, old(pos))
        decreases |tokens| - pos
      {
        var token := CurrentToken();
        Advance();
        var right :- Term();
        node := NewBinaryOperator(node, token, right);
      }
      r := Ok(node);
    }

    /** eq_not_eq. */
    method EqNotEq() returns (r: Result<Node, ParseError>)
      requires pos <= |tokens|
      modifies this
      ensures Agrees(r, Grammar.EqNotEq(tokens, old(pos)), pos)
      ensures insideFunc == old(insideFunc)
      decreases |tokens| - pos, 18
    {
      var node :- SubAdd();
      if !IsCompareOp(CurrentToken().kind) {
        return Ok(node);
      }
      ghost var start := pos;
      var comparables := [node];
      var operators := [];
      while IsCompareOp(CurrentToken().kind)
        invariant start <= pos <= |tokens|
        invariant insideFunc == old(insideFunc)
        invariant CompareLoop(tokens, pos, comparables, operators) == CompareLoop(tokens, start, [node], [])
        decreases |tokens| - pos
      {
        var op := CurrentToken();
        Advance();
        var right :- Expr();
        comparables := comparables + [right];
        operators := operators + [op];
      }
      r := Ok(Compare(comparables, operators));
    }

    /** expr. */
    method Expr() returns (r: Result<Node, ParseError>)
      requires pos <= |tokens|
      modifies this
      ensures Agrees(r, Grammar.Expr(tokens, old(pos)), pos)
      ensures insideFunc == old(insideFunc)
      decreases |tokens| - pos, 20
    {
      var node :- EqNotEq();
      while IsConnective(CurrentToken().kind)
        invariant old(pos) < pos <= |tokens|
        invariant insideFunc == old(insideFunc)
        invariant ExprLoop(tokens, pos, node) == Grammar.Expr(tokens, old(pos))
        decreases |tokens| - pos
      {
        var op := CurrentToken();
        Advance();
        var right :- Expr();
        node := NewDoubleCondition(node, op, right);
      }
      r := Ok(node);
    }
  }
}
