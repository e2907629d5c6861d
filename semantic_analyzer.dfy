/** The scoped name checker (interpreter/SemanticAnalyzer.cpp). It walks the
    tree once, keeps a chain of symbol tables (the current one first), opens
    a table for every if body, while body and function, and stops at the
    first name that is declared twice in one table or used without being
    declared. The pure functions below say what a walk does to the chain of
    tables; the SemanticAnalyzer class is proved to do exactly that on real
    SymbolTable objects. */
module SemanticAnalysis {
  import opened Wrappers
  import opened Tokens
  import opened Ast
  import opened ScopeChain
  import opened Symbols

  /** The bindings of the table chain, current table first; empty while
      current_scope is NULL. */
  type Scopes = seq<map<string, Symbol>>

  /** Why the walk stops. A NameError carries the offending token. */
  datatype SemError =
    | NotDeclared(token: Token)
    | AlreadyDeclared(token: Token)
    /** A node kind outside the dispatch ("Unknown AST branch"). */
    | UnknownBranch(diagnostic: Option<Token>)
    /** visit(NULL): the fallback branch dereferences the missing node. */
    | NullNode
    /** A table operation while current_scope is NULL. */
    | NullScope

  /** define(new Symbol(name)) on the current table. */
  function Define(env: Scopes, name: string): (r: Scopes)
    requires |env| > 0
  {
    [env[0][name := Symbol(name)]] + env[1..]
  }

  /** What a successful walk may do to the chain: keep its length and every
      enclosing table, and only add names to the current table. From a NULL
      scope, at most the level-1 table is created. */
  predicate Extends(before: Scopes, after: Scopes)
  {
    && (|before| > 0 ==> |after| == |before| && after[1..] == before[1..] && before[0].Keys <= after[0].Keys)
    && (before == [] ==> |after| <= 1)
  }

  /** visit_variable: the name must resolve through the chain. */
  function Resolve(token: Token, name: string, env: Scopes): (r: Result<Scopes, SemError>)
    ensures r.Ok? ==> r.value == env && env != [] && Nearest(env, name).Some?
    ensures r.Err? ==> r.error == NullScope || r.error == NotDeclared(token)
  {
    if env == [] then Err(NullScope)
    else if Nearest(env, name).None? then Err(NotDeclared(token))
    else Ok(env)
  }

  /** visit_var_declaration: each name in turn must be new to the current
      table, and is then defined there. */
  function Declare(vars: seq<Token>, env: Scopes): (r: Result<Scopes, SemError>)
    ensures r.Ok? ==> Extends(env, r.value)
    ensures r.Ok? ==> forall v :: v in vars ==> |r.value| > 0 && v.text in r.value[0]
  {
    if vars == [] then Ok(env)
    else if env == [] then Err(NullScope)
    else if vars[0].text in env[0] then Err(AlreadyDeclared(vars[0]))
    else Declare(vars[1..], Define(env, vars[0].text))
  }

  /** visit: the dispatch on the node's kind. */
  function Check(node: Node, env: Scopes): (r: Result<Scopes, SemError>)
    ensures r.Ok? ==> Extends(env, r.value)
    decreases node, 2, 0
  {
    match node
    case BinaryOperator(l, _, rt) => CheckBoth(node, l, rt, env)
    case UnaryOperator(_, e) => Check(e, env)
    case Value(_, _) => Ok(env)
    case Compare(cs, _) => CheckSeq(node, cs, env)
    case Compound(_, ch) => CheckSeq(node, ch, if env == [] then [map[]] else env)
    case Assign(left, _, right) =>
      var afterLeft :=
        if left.Variable? then Resolve(left.token, left.value, env)
        else if left.ArrayAccess? then Check(left, env)
        else Ok(env);
      (match afterLeft
       case Err(e) => Err(e)
       case Ok(e1) => Check(right, e1))
    case Variable(t, name) => Resolve(t, name, env)
    case NoOperator => Ok(env)
    case DoubleCondition(l, _, rt) => CheckBoth(node, l, rt, env)
    case Negation(_, s) => Check(s, env)
    case VariableDeclaration(vars, _) => Declare(vars, env)
    case IfCondition(c, s, _) =>
      (match Check(c, env)
       case Err(e) => Err(e)
       case Ok(e1) => Scoped(node, s, e1))
    case Print(p) => Check(p, env)
    case ArrayInit(es) => CheckSeq(node, es, env)
    case ArrayAccess(a, i) => CheckBoth(node, a, i, env)
    case FunctionInit(name, params, block) =>
      if env == [] then Err(NullScope) else CheckFunction(node, params, block, Define(env, name))
    case FunctionCall(f, args) =>
      (match Check(f, env)
       case Err(e) => Err(e)
       case Ok(e1) => CheckSeq(node, args, e1))
    case Return(_, e) => Check(e, env)
    case WhileLoop(c, s) =>
      (match Check(c, env)
       case Err(e) => Err(e)
       case Ok(e1) => Scoped(node, s, e1))
    case CastValue(v, _) => Check(v, env)
    case Import(_, _, name) => if env == [] then Err(NullScope) else Ok(Define(env, name))
    case ObjectDive(p, _, child) =>
      (match Check(p, env)
       case Err(e) => Err(e)
       case Ok(e1) => Resolve(child, child.text, e1))
    case ClassInit(_, _) => Err(UnknownBranch(Diagnostic(node)))
  }

  /** Two children in order. */
  function CheckBoth(ghost parent: Node, a: Node, b: Node, env: Scopes): (r: Result<Scopes, SemError>)
    requires a < parent && b < parent
    ensures r.Ok? ==> Extends(env, r.value)
    decreases parent, 1, 0
  {
    match Check(a, env)
    case Err(e) => Err(e)
    case Ok(e1) => Check(b, e1)
  }

  /** The `for` loops over a list of children, left to right. */
  function CheckSeq(ghost parent: Node, ch: seq<Node>, env: Scopes): (r: Result<Scopes, SemError>)
    requires forall c :: c in ch ==> c < parent
    ensures r.Ok? ==> Extends(env, r.value)
    decreases parent, 1, |ch|
  {
    if ch == [] then Ok(env)
    else
      assert ch[0] in ch;
      assert forall c :: c in ch[1..] ==> c in ch;
      match Check(ch[0], env)
      case Err(e) => Err(e)
      case Ok(e1) => CheckSeq(parent, ch[1..], e1)
  }

  /** One turn of the loop: the first child, then the rest. */
  lemma CheckSeqStep(parent: Node, ch: seq<Node>, env: Scopes)
    requires ch != [] && forall c :: c in ch ==> c < parent
    ensures forall c :: c in ch[1..] ==> c < parent
    ensures var first := Check(ch[0], env);
      CheckSeq(parent, ch, env) ==
        if first.Err? then Err(first.error) else CheckSeq(parent, ch[1..], first.value)
  {
    assert forall c :: c in ch[1..] ==> c in ch;
  }

  /** enter_new_scope, visit the body, leave_scope. */
  function Scoped(ghost parent: Node, body: Node, env: Scopes): (r: Result<Scopes, SemError>)
    requires body < parent
    ensures r.Ok? ==> r.value == env
    decreases parent, 1, 0
  {
    if env == [] then Err(NullScope)
    else
      match Check(body, [map[]] + env)
      case Err(e) => Err(e)
      case Ok(inner) => Ok(inner[1..])
  }

  /** The part of visit_function_init after the name is defined: a fresh
      table for the parameters and the block. A function without
      parameters (NULL) checks only its block. */
  function CheckFunction(ghost parent: Node, params: Option<Node>, block: Node, env: Scopes): (r: Result<Scopes, SemError>)
    requires |env| > 0
    requires (params.Some? ==> params.value < parent) && block < parent
    ensures r.Ok? ==> r.value == env
    decreases parent, 1, 0
  {
    var inner := [map[]] + env;
    var afterParams := if params.Some? then Check(params.value, inner) else Ok(inner);
    match afterParams
    case Err(e) => Err(e)
    case Ok(e1) =>
      match Check(block, e1)
      case Err(e) => Err(e)
      case Ok(e2) => Ok(e2[1..])
  }

  /** visit_function_init as written: `visit(params)` is called even when
      params is NULL, and visit(NULL) dereferences the null node. */
  function CheckFunctionAsWritten(name: string, params: Option<Node>, block: Node, env: Scopes): (r: Result<Scopes, SemError>)
    ensures env != [] && params.None? ==> r == Err(NullNode)
    ensures r.Ok? ==> env != [] && r.value == Define(env, name)
  {
    if env == [] then Err(NullScope)
    else
      var inner := [map[]] + Define(env, name);
      var afterParams := if params.Some? then Check(params.value, inner) else Err(NullNode);
      match afterParams
      case Err(e) => Err(e)
      case Ok(e1) =>
        match Check(block, e1)
        case Err(e) => Err(e)
        case Ok(e2) => Ok(e2[1..])
  }

  // ---------------------------------------------------------------------
  // Scope discipline

  /** The first Compound, visited with no table, creates the level-1 table;
      a Compound opens no scope of its own, so what its children declare
      stays in the current table. */
  lemma CompoundOpensNoScope(insideFunc: bool, t: Token, env: Scopes)
    requires t.text !in (if env == [] then map[] else env[0])
    ensures Check(Compound(insideFunc, [VariableDeclaration([t], [])]), env)
         == Ok(Define(if env == [] then [map[]] else env, t.text))
  {
    var decl := VariableDeclaration([t], []);
    var node := Compound(insideFunc, [decl]);
    var start := if env == [] then [map[]] else env;
    assert [t][1..] == [];
    assert Check(decl, start) == Declare([t], start) == Ok(Define(start, t.text));
    assert [decl][1..] == [];
    assert CheckSeq(node, [decl], start) == CheckSeq(node, [], Define(start, t.text));
  }

  /** Within an open chain, a Compound with any children keeps the chain's
      length and every enclosing table, and only adds names to the current
      table: it opens no scope of its own. */
  lemma CompoundKeepsEnclosingTables(insideFunc: bool, ch: seq<Node>, env: Scopes)
    requires |env| > 0
    ensures Check(Compound(insideFunc, ch), env).Ok? ==>
      var after := Check(Compound(insideFunc, ch), env).value;
      |after| == |env| && after[1..] == env[1..] && env[0].Keys <= after[0].Keys
  {
  }

  /** From no table at all, a whole program runs in exactly one table. */
  lemma RootCompoundCreatesOneTable(insideFunc: bool, ch: seq<Node>)
    ensures Check(Compound(insideFunc, ch), []).Ok? ==> |Check(Compound(insideFunc, ch), []).value| == 1
  {
  }

  /** If and while bodies run in a table of their own that is discarded
      afterwards: the chain after the statement is the chain after its
      condition, so nothing declared in the body is visible later. */
  lemma BodiesAreScoped(c: Node, s: Node, elses: seq<Node>, env: Scopes)
    ensures Check(IfCondition(c, s, elses), env).Ok? ==>
      Check(c, env).Ok? && Check(IfCondition(c, s, elses), env).value == Check(c, env).value
    ensures Check(WhileLoop(c, s), env).Ok? ==>
      Check(c, env).Ok? && Check(WhileLoop(c, s), env).value == Check(c, env).value
  {
  }

  /** A declaration is rejected exactly when the current table alone holds
      the name; names of enclosing tables may be shadowed. */
  lemma RedeclarationIffInCurrentTable(t: Token, assignments: seq<Node>, env: Scopes)
    requires |env| > 0
    ensures Check(VariableDeclaration([t], assignments), env)
         == if t.text in env[0] then Err(AlreadyDeclared(t)) else Ok(Define(env, t.text))
    ensures t.text !in env[0] ==> Nearest(Define(env, t.text), t.text) == Some(Symbol(t.text))
  {
    assert Check(VariableDeclaration([t], assignments), env) == Declare([t], env);
    if t.text !in env[0] {
      assert [t][1..] == [];
      BindInnermost(env, t.text, Symbol(t.text));
    }
  }

  /** A variable reference succeeds exactly when some table of the chain
      holds the name; otherwise it is a NameError at its token. */
  lemma VariableResolvesIffBound(t: Token, name: string, env: Scopes)
    requires |env| > 0
    ensures Check(Variable(t, name), env).Ok? <==> BoundIn(env, name)
    ensures !BoundIn(env, name) ==> Check(Variable(t, name), env) == Err(NotDeclared(t))
  {
    NearestNoneIffUnbound(env, name);
  }

  /** Assigning to a plain variable requires its name to resolve through the
      chain, before the right-hand side is looked at. */
  lemma AssignTargetMustResolve(t: Token, name: string, op: Token, right: Node, env: Scopes)
    requires |env| > 0
    ensures !BoundIn(env, name) ==> Check(Assign(Variable(t, name), op, right), env) == Err(NotDeclared(t))
    ensures BoundIn(env, name) ==> Check(Assign(Variable(t, name), op, right), env) == Check(right, env)
  {
    NearestNoneIffUnbound(env, name);
  }

  /** A function's name is defined in the enclosing table before its body is
      checked, so the body may refer to the function itself. This is the
      instance of a block that only uses that name; the general rule for
      any block is ParameterlessFunctionChecksBlock, and
      FunctionDeclarationsStayInside says that the block's own declarations
      stay in the function's table. */
  lemma FunctionNameVisibleInBody(f: string, t: Token, insideFunc: bool, env: Scopes)
    requires |env| > 0
    ensures Check(FunctionInit(f, None, Compound(insideFunc, [Variable(t, f)])), env) == Ok(Define(env, f))
  {
    var inner := [map[]] + Define(env, f);
    NearestShadows(inner, f, 1);
    ResolvedUseChecks(insideFunc, t, f, inner);
    ParameterlessFunctionChecksBlock(f, Compound(insideFunc, [Variable(t, f)]), env);
    assert inner[1..] == Define(env, f);
  }

  /** A function without parameters: its name goes into the current table,
      then its block is checked in a fresh table that is dropped afterwards. */
  lemma ParameterlessFunctionChecksBlock(f: string, block: Node, env: Scopes)
    requires |env| > 0
    ensures var inner := [map[]] + Define(env, f);
      Check(FunctionInit(f, None, block), env)
      == (match Check(block, inner)
          case Err(e) => Err(e)
          case Ok(e2) => Ok(e2[1..]))
  {
    var node := FunctionInit(f, None, block);
    assert Check(node, env) == CheckFunction(node, None, block, Define(env, f));
  }

  /** A block holding one use of a name that resolves leaves the chain as it is. */
  lemma ResolvedUseChecks(insideFunc: bool, t: Token, f: string, inner: Scopes)
    requires |inner| > 0 && Nearest(inner, f).Some?
    ensures Check(Compound(insideFunc, [Variable(t, f)]), inner) == Ok(inner)
  {
    var use := Variable(t, f);
    var body := Compound(insideFunc, [use]);
    assert Check(use, inner) == Ok(inner);
    assert [use][1..] == [];
    assert CheckSeq(body, [use], inner) == CheckSeq(body, [], inner);
  }

  /** Whatever a function declares stays inside it: afterwards only its own
      name has been added. */
  lemma FunctionDeclarationsStayInside(f: string, params: Option<Node>, block: Node, env: Scopes)
    requires |env| > 0
    ensures Check(FunctionInit(f, params, block), env).Ok? ==>
      Check(FunctionInit(f, params, block), env).value == Define(env, f)
  {
  }

  /** import defines its alias in the current table even when the name is
      already there. */
  lemma ImportRedefinesWithoutCheck(t: Token, path: string, name: string, env: Scopes)
    requires |env| > 0 && name in env[0]
    ensures Check(Import(t, path, name), env) == Ok(Define(env, name))
  {
  }

  /** A node kind outside the dispatch is an error. */
  lemma UnknownKindIsRejected(className: string, block: Node, env: Scopes)
    ensures Check(ClassInit(className, block), env) == Err(UnknownBranch(None))
  {
  }

  /** visit_function_init as written fails on every function without
      parameters, which the corrected walk accepts. */
  lemma ParameterlessFunctionAsWritten(f: string, insideFunc: bool, env: Scopes)
    requires |env| > 0
    ensures CheckFunctionAsWritten(f, None, Compound(insideFunc, []), env) == Err(NullNode)
    ensures Check(FunctionInit(f, None, Compound(insideFunc, [])), env) == Ok(Define(env, f))
  {
    EmptyFunctionChecks(f, insideFunc, env);
  }

  /** A function without parameters and with an empty block only defines
      its name. */
  lemma EmptyFunctionChecks(f: string, insideFunc: bool, env: Scopes)
    requires |env| > 0
    ensures Check(FunctionInit(f, None, Compound(insideFunc, [])), env) == Ok(Define(env, f))
  {
    var inner := [map[]] + Define(env, f);
    EmptyBlockChecks(insideFunc, inner);
    ParameterlessFunctionChecksBlock(f, Compound(insideFunc, []), env);
    assert inner[1..] == Define(env, f);
  }

  /** An empty block inside an open table changes nothing. */
  lemma EmptyBlockChecks(insideFunc: bool, env: Scopes)
    requires |env| > 0
    ensures Check(Compound(insideFunc, []), env) == Ok(env)
  {
    assert CheckSeq(Compound(insideFunc, []), [], env) == Ok(env);
  }

  // ---------------------------------------------------------------------
  // The analyzer over real tables

  /** What a visit reports: success, or the error that stops the walk;
      the chain of tables the walk produced is dropped. The table builder and the
      analyzer each state this over their own result type rather than
      through one generic function in Wrappers: the two walks produce
      different types, and the specialised form keeps the proofs of the
      visitor methods, which mention it in every postcondition, small. */
  function Outcome(c: Result<Scopes, SemError>): (r: Result<(), SemError>)
    ensures r.Ok? <==> c.Ok?
    ensures r.Err? ==> r.error == c.error
  {
    match c
    case Ok(_) => Ok(())
    case Err(e) => Err(e)
  }

  class SemanticAnalyzer {
    /** The innermost open table; null until the first Compound. */
    var currentScope: SymbolTable?

    ghost predicate Valid()
      reads this
    {
      currentScope != null ==> currentScope.Linked()
    }

    /** The chain of tables as the pure model sees it. */
    ghost function Env(): (r: Scopes)
      requires Valid()
      reads this, if currentScope == null then {} else currentScope.Repr
    {
      if currentScope == null then [] else currentScope.Maps()
    }

    /** What a visit may change: the analyzer and the tables of its chain. */
    ghost function Footprint(): (r: set<object>)
      reads this
    {
      {this} + (if currentScope == null then {} else currentScope.Repr)
    }

    /** SemanticAnalyzer::SemanticAnalyzer: no table yet. */
    constructor ()
      ensures Valid() && currentScope == null && Env() == []
    {
      currentScope := null;
    }

    /** enter_new_scope: a fresh table one level deeper, enclosing the
        current one. */
    method EnterNewScope()
      requires Valid() && currentScope != null
      modifies this
      ensures Valid() && fresh(currentScope)
      ensures currentScope != null && currentScope.enclosingScope == old(currentScope)
      ensures currentScope.scopeLevel == old(currentScope.scopeLevel) + 1
      ensures currentScope.Repr == {currentScope} + old(currentScope.Repr)
      ensures Env() == [map[]] + old(Env())
    {
      var level := currentScope.scopeLevel + 1;
      currentScope := new SymbolTable(level, currentScope);
    }

    /** leave_scope: back to the enclosing table. */
    method LeaveScope()
      requires Valid() && currentScope != null
      modifies this
      ensures Valid() && currentScope == old(currentScope.enclosingScope)
      ensures Env() == old(Env())[1..]
    {
      currentScope := currentScope.enclosingScope;
    }

    /** visit: dispatch on the node's kind. The outcome is the pure
        check's, and on success the tables hold what the check computed;
        the current table is the one the visit started with, or the
        level-1 table a Compound created when there was none. */
    method Visit(node: Node) returns (r: Result<(), SemError>)
      requires Valid()
      modifies Footprint()
      ensures r == Outcome(Check(node, old(Env())))
      ensures r.Ok? ==> Valid() && Env() == Check(node, old(Env())).value
      ensures r.Ok? && old(currentScope) != null ==> currentScope == old(currentScope)
      ensures r.Ok? && old(currentScope) == null && currentScope != null ==>
        fresh(currentScope) && currentScope.enclosingScope == null && currentScope.scopeLevel == 1
      decreases node, 3, 0
    {
      if !(node.BinaryOperator? || node.UnaryOperator? || node.Value? || node.Compare? || node.Compound?) {
        r := VisitMiddleKinds(node);
        return;
      }
      match node {
        case BinaryOperator(l, _, rt) => r := VisitBoth(node, l, rt);
        case UnaryOperator(_, e) => r := Visit(e);
        case Value(_, _) => r := Ok(());
        case Compare(cs, _) => r := VisitAll(node, cs);
        case Compound(_, ch) => r := VisitCompound(node, ch);
      }
    }

    /** The second part of visit's chain of kind tests, from assignments to
        variable declarations. */
    method VisitMiddleKinds(node: Node) returns (r: Result<(), SemError>)
      requires !(node.BinaryOperator? || node.UnaryOperator? || node.Value? || node.Compare? || node.Compound?)
      requires Valid()
      modifies Footprint()
      ensures r == Outcome(Check(node, old(Env())))
      ensures r.Ok? ==> Valid() && Env() == Check(node, old(Env())).value
      ensures r.Ok? && old(currentScope) != null ==> currentScope == old(currentScope)
      ensures r.Ok? && old(currentScope) == null && currentScope != null ==>
        fresh(currentScope) && currentScope.enclosingScope == null && currentScope.scopeLevel == 1
      decreases node, 2, 2
    {
      if !(node.Assign? || node.Variable? || node.NoOperator? || node.DoubleCondition? || node.Negation? || node.VariableDeclaration?) {
        r := VisitLaterKinds(node);
        return;
      }
      match node {
        case Assign(_, _, _) => r := VisitAssign(node);
        case Variable(t, name) => r := VisitVariable(t, name);
        case NoOperator => r := Ok(());
        case DoubleCondition(l, _, rt) => r := VisitBoth(node, l, rt);
        case Negation(_, s) => r := Visit(s);
        case VariableDeclaration(vars, _) => r := VisitVarDeclaration(vars);
      }
    }

    /** The third part of visit's chain of kind tests, from if conditions
        to function calls. */
    method VisitLaterKinds(node: Node) returns (r: Result<(), SemError>)
      requires !(node.BinaryOperator? || node.UnaryOperator? || node.Value? || node.Compare? || node.Compound?)
      requires !(node.Assign? || node.Variable? || node.NoOperator? || node.DoubleCondition? || node.Negation?)
      requires !node.VariableDeclaration?
      requires Valid()
      modifies Footprint()
      ensures r == Outcome(Check(node, old(Env())))
      ensures r.Ok? ==> Valid() && Env() == Check(node, old(Env())).value
      ensures r.Ok? && old(currentScope) != null ==> currentScope == old(currentScope)
      ensures r.Ok? && old(currentScope) == null && currentScope != null ==>
        fresh(currentScope) && currentScope.enclosingScope == null && currentScope.scopeLevel == 1
      decreases node, 2, 1
    {
      if !(node.IfCondition? || node.Print? || node.ArrayInit? || node.ArrayAccess? || node.FunctionInit? || node.FunctionCall?) {
        r := VisitLastKinds(node);
        return;
      }
      match node {
        case IfCondition(_, _, _) => r := VisitGuarded(node);
        case Print(p) => r := Visit(p);
        case ArrayInit(es) => r := VisitAll(node, es);
        case ArrayAccess(a, i) => r := VisitBoth(node, a, i);
        case FunctionInit(_, _, _) => r := VisitFunctionInit(node);
        case FunctionCall(f, args) =>
          r := Visit(f);
          if r.Ok? {
            r := VisitAll(node, args);
          }
      }
    }

    /** The last part of visit's chain of kind tests, from returns to
        object dives and the unknown-branch error. */
    method VisitLastKinds(node: Node) returns (r: Result<(), SemError>)
      requires node.Return? || node.WhileLoop? || node.CastValue? || node.Import? || node.ObjectDive? || node.ClassInit?
      requires Valid()
      modifies Footprint()
      ensures r == Outcome(Check(node, old(Env())))
      ensures r.Ok? ==> Valid() && Env() == Check(node, old(Env())).value
      ensures r.Ok? && old(currentScope) != null ==> currentScope == old(currentScope)
      ensures r.Ok? && old(currentScope) == null && currentScope != null ==>
        fresh(currentScope) && currentScope.enclosingScope == null && currentScope.scopeLevel == 1
      decreases node, 2, 0
    {
      match node {
        case Return(_, e) => r := Visit(e);
        case WhileLoop(_, _) => r := VisitGuarded(node);
        case CastValue(v, _) => r := Visit(v);
        case Import(_, _, name) => r := VisitImport(name);
        case ObjectDive(_, _, _) => r := VisitObjectDive(node);
        case ClassInit(_, _) => r := Err(UnknownBranch(Diagnostic(node)));
      }
    }

    /** visit_object_dive: the parent, then the child as a variable. */
    method VisitObjectDive(node: Node) returns (r: Result<(), SemError>)
      requires node.ObjectDive?
      requires Valid()
      modifies Footprint()
      ensures r == Outcome(Check(node, old(Env())))
      ensures r.Ok? ==> Valid() && Env() == Check(node, old(Env())).value
      ensures r.Ok? && old(currentScope) != null ==> currentScope == old(currentScope)
      ensures r.Ok? && old(currentScope) == null && currentScope != null ==>
        fresh(currentScope) && currentScope.enclosingScope == null && currentScope.scopeLevel == 1
      decreases node, 1, 0
    {
      r := Visit(node.parent);
      if r.Ok? {
        r := VisitVariable(node.child, node.child.text);
      }
    }

    /** Two children in order (binary operator, double condition, array
        access). */
    method VisitBoth(ghost parent: Node, a: Node, b: Node) returns (r: Result<(), SemError>)
      requires a < parent && b < parent
      requires Valid()
      modifies Footprint()
      ensures r == Outcome(CheckBoth(parent, a, b, old(Env())))
      ensures r.Ok? ==> Valid() && Env() == CheckBoth(parent, a, b, old(Env())).value
      ensures r.Ok? && old(currentScope) != null ==> currentScope == old(currentScope)
      ensures r.Ok? && old(currentScope) == null && currentScope != null ==>
        fresh(currentScope) && currentScope.enclosingScope == null && currentScope.scopeLevel == 1
      decreases parent, 1, 0
    {
      r := Visit(a);
      if r.Err? {
        return;
      }
      r := Visit(b);
    }

    /** The `for` loops over children (compare, array init, call
        arguments). */
    method VisitAll(ghost parent: Node, ch: seq<Node>) returns (r: Result<(), SemError>)
      requires forall c :: c in ch ==> c < parent
      requires Valid()
      modifies Footprint()
      ensures r == Outcome(CheckSeq(parent, ch, old(Env())))
      ensures r.Ok? ==> Valid() && Env() == CheckSeq(parent, ch, old(Env())).value
      ensures r.Ok? && old(currentScope) != null ==> currentScope == old(currentScope)
      ensures r.Ok? && old(currentScope) == null && currentScope != null ==>
        fresh(currentScope) && currentScope.enclosingScope == null && currentScope.scopeLevel == 1
      decreases parent, 1, |ch|
    {
      var i := 0;
      while i < |ch|
        invariant 0 <= i <= |ch|
        invariant Valid()
        invariant forall c :: c in ch[i..] ==> c < parent
        invariant CheckSeq(parent, ch[i..], Env()) == CheckSeq(parent, ch, old(Env()))
        invariant old(currentScope) != null ==> currentScope == old(currentScope)
        invariant old(currentScope) == null && currentScope != null ==>
          fresh(currentScope) && currentScope.enclosingScope == null && currentScope.scopeLevel == 1
      {
        ghost var before := Env();
        assert ch[i..][0] == ch[i] && ch[i..][1..] == ch[i + 1..];
        assert ch[i] in ch;
        CheckSeqStep(parent, ch[i..], before);
        r := Visit(ch[i]);
        if r.Err? {
          assert CheckSeq(parent, ch[i..], before) == Err(r.error);
          return;
        }
        assert CheckSeq(parent, ch[i + 1..], Env()) == CheckSeq(parent, ch, old(Env()));
        i := i + 1;
      }
      assert ch[i..] == [];
      r := Ok(());
    }

    /** visit_compound: the first Compound creates the level-1 table; the
        children are visited in the current table. */
    method VisitCompound(ghost parent: Node, ch: seq<Node>) returns (r: Result<(), SemError>)
      requires forall c :: c in ch ==> c < parent
      requires Valid()
      modifies Footprint()
      ensures r == Outcome(CheckSeq(parent, ch, if old(Env()) == [] then [map[]] else old(Env())))
      ensures r.Ok? ==> Valid()
      ensures r.Ok? ==> Env() == CheckSeq(parent, ch, if old(Env()) == [] then [map[]] else old(Env())).value
      ensures r.Ok? && old(currentScope) != null ==> currentScope == old(currentScope)
      ensures r.Ok? && old(currentScope) == null ==>
        currentScope != null && fresh(currentScope) && currentScope.enclosingScope == null && currentScope.scopeLevel == 1
      decreases parent, 1, |ch| + 1
    {
      if currentScope == null {
        currentScope := new SymbolTable(1, null);
        assert Env() == [map[]];
      }
      r := VisitAll(parent, ch);
    }
  
    /** visit_variable: the name must resolve through the chain of tables;
        nothing changes. */
    method VisitVariable(t: Token, name: string) returns (r: Result<(), SemError>)
      requires Valid()
      ensures r == Outcome(Resolve(t, name, Env()))
    {
      if currentScope == null {
        return Err(NullScope);
      }
      var symbol := currentScope.Lookup(name, false);
      if symbol.None? {
        r := Err(NotDeclared(t));
      } else {
        r := Ok(());
      }
    }

    /** visit_assign: a variable target must resolve, an array access is
        visited, then the right-hand side. */
    method VisitAssign(node: Node) returns (r: Result<(), SemError>)
      requires node.Assign?
      requires Valid()
      modifies Footprint()
      ensures r == Outcome(Check(node, old(Env())))
      ensures r.Ok? ==> Valid() && Env() == Check(node, old(Env())).value
      ensures r.Ok? && old(currentScope) != null ==> currentScope == old(currentScope)
      ensures r.Ok? && old(currentScope) == null && currentScope != null ==>
        fresh(currentScope) && currentScope.enclosingScope == null && currentScope.scopeLevel == 1
      decreases node, 1, 0
    {
      var left := node.left;
      match left {
        case Variable(t, name) => r := VisitVariable(t, name);
        case ArrayAccess(a, i) => r := VisitBoth(left, a, i);
        case _ => r := Ok(());
      }
      if r.Err? {
        return;
      }
      r := Visit(node.right);
    }

    /** visit_var_declaration: each name must be new to the current table,
        and is then defined there. */
    method VisitVarDeclaration(vars: seq<Token>) returns (r: Result<(), SemError>)
      requires Valid()
      modifies Footprint()
      ensures r == Outcome(Declare(vars, old(Env())))
      ensures r.Ok? ==> Valid() && Env() == Declare(vars, old(Env())).value
      ensures currentScope == old(currentScope)
    {
      var i := 0;
      while i < |vars|
        invariant 0 <= i <= |vars|
        invariant Valid() && currentScope == old(currentScope)
        invariant Declare(vars[i..], Env()) == Declare(vars, old(Env()))
      {
        assert vars[i..][0] == vars[i] && vars[i..][1..] == vars[i + 1..];
        if currentScope == null {
          return Err(NullScope);
        }
        var name := vars[i].text;
        if currentScope.Lookup(name, true).Some? {
          return Err(AlreadyDeclared(vars[i]));
        }
        currentScope.Define(Symbol(name));
        i := i + 1;
      }
      assert vars[i..] == [];
      r := Ok(());
    }

    /** enter_new_scope, visit the body, leave_scope. */
    method VisitScoped(ghost parent: Node, body: Node) returns (r: Result<(), SemError>)
      requires body < parent
      requires Valid()
      modifies Footprint()
      ensures r == Outcome(Scoped(parent, body, old(Env())))
      ensures r.Ok? ==> Valid() && Env() == old(Env()) && currentScope == old(currentScope)
      decreases parent, 0, 0
    {
      if currentScope == null {
        return Err(NullScope);
      }
      EnterNewScope();
      r := Visit(body);
      if r.Err? {
        return;
      }
      LeaveScope();
    }

    /** visit_if_condition and visit_while_loop: the condition in the
        current table, the body in a table of its own. */
    method VisitGuarded(node: Node) returns (r: Result<(), SemError>)
      requires node.IfCondition? || node.WhileLoop?
      requires Valid()
      modifies Footprint()
      ensures r == Outcome(Check(node, old(Env())))
      ensures r.Ok? ==> Valid() && Env() == Check(node, old(Env())).value
      ensures r.Ok? && old(currentScope) != null ==> currentScope == old(currentScope)
      ensures r.Ok? && old(currentScope) == null && currentScope != null ==>
        fresh(currentScope) && currentScope.enclosingScope == null && currentScope.scopeLevel == 1
      decreases node, 1, 0
    {
      r := Visit(node.condition);
      if r.Err? {
        return;
      }
      r := VisitScoped(node, node.statement);
    }

    /** visit_function_init: the name in the current table, then the
        parameters (when there are any) and the block in a fresh table. */
    method VisitFunctionInit(node: Node) returns (r: Result<(), SemError>)
      requires node.FunctionInit?
      requires Valid()
      modifies Footprint()
      ensures r == Outcome(Check(node, old(Env())))
      ensures r.Ok? ==> Valid() && Env() == Check(node, old(Env())).value
      ensures r.Ok? ==> currentScope == old(currentScope)
      decreases node, 1, 0
    {
      if currentScope == null {
        return Err(NullScope);
      }
      currentScope.Define(Symbol(node.funcName));
      EnterNewScope();
      if node.params.Some? {
        assert node.params.value < node.params < node;
        r := Visit(node.params.value);
        if r.Err? {
          return;
        }
      }
      r := Visit(node.block);
      if r.Err? {
        return;
      }
      LeaveScope();
    }

    /** visit_import: the alias is defined in the current table, whether or
        not it is already there. */
    method VisitImport(name: string) returns (r: Result<(), SemError>)
      requires Valid()
      modifies Footprint()
      ensures r == Outcome(Check(Import(EndOfFileToken, "", name), old(Env())))
      ensures r.Ok? ==> Valid() && Env() == Define(old(Env()), name)
      ensures currentScope == old(currentScope)
    {
      if currentScope == null {
        return Err(NullScope);
      }
      currentScope.Define(Symbol(name));
      r := Ok(());
    }
  }
}
