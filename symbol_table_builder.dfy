/** The older, flat name checker (interpreter/SymbolTableBuilder.cpp). One
    table holds every name: no node opens a scope, a name must be declared
    before it is used or assigned, a name may be declared only once, and
    node kinds outside its dispatch are passed over without a look inside.
    The pure functions say what a walk does to the table; the
    SymbolTableBuilder class is proved to do exactly that to a real
    SymbolTable. */
module TableBuilding {
  import opened Wrappers
  import opened Tokens
  import opened Ast
  import opened Symbols

  type Table = map<string, Symbol>

  /** Why the walk stops (NameError, with the offending token). */
  datatype BuildError =
    | NotDeclared(token: Token)
    | AlreadyDeclared(token: Token)
      /** visit_assign reads the target as a Variable; any other target
          has no defined behaviour. */
    | TargetNotVariable

  /** The kinds visit dispatches on; every other kind is skipped. */
  predicate Dispatched(node: Node)
  {
    || node.BinaryOperator? || node.UnaryOperator? || node.Value? || node.Compare?
    || node.Compound? || node.Assign? || node.Variable? || node.NoOperator?
    || node.DoubleCondition? || node.Negation? || node.VariableDeclaration?
    || node.IfCondition? || node.Print? || node.ArrayInit? || node.ArrayAccess?
  }

  /** visit_variable: the name must be in the table. */
  function Resolve(token: Token, name: string, table: Table): (r: Result<Table, BuildError>)
    ensures r.Ok? <==> name in table
    ensures r == Ok(table) || r == Err(NotDeclared(token))
  {
    if name in table then Ok(table) else Err(NotDeclared(token))
  }

  /** visit_var_declaration: each name in turn must be new to the table,
      and is then defined. */
  function Declare(vars: seq<Token>, table: Table): (r: Result<Table, BuildError>)
    ensures r.Ok? ==> table.Keys <= r.value.Keys
  {
    if vars == [] then Ok(table)
    else if vars[0].text in table then Err(AlreadyDeclared(vars[0]))
    else Declare(vars[1..], table[vars[0].text := Symbol(vars[0].text)])
  }

  /** visit: the dispatch on the node's kind. */
  function Build(node: Node, table: Table): (r: Result<Table, BuildError>)
    ensures r.Ok? ==> table.Keys <= r.value.Keys
    decreases node, 2, 0
  {
    match node
    case BinaryOperator(l, _, rt) => BuildBoth(node, l, rt, table)
    case UnaryOperator(_, e) => Build(e, table)
    case Value(_, _) => Ok(table)
    case Compare(cs, _) => BuildSeq(node, cs, table)
    case Compound(_, ch) => BuildSeq(node, ch, table)
    case Assign(left, _, right) =>
      if !left.Variable? then Err(TargetNotVariable)
      else
        (match Resolve(left.token, left.value, table)
         case Err(e) => Err(e)
         case Ok(t1) => Build(right, t1))
    case Variable(t, name) => Resolve(t, name, table)
    case NoOperator => Ok(table)
    case DoubleCondition(l, _, rt) => BuildBoth(node, l, rt, table)
    case Negation(_, s) => Build(s, table)
    case VariableDeclaration(vars, _) => Declare(vars, table)
    case IfCondition(c, s, _) => BuildBoth(node, c, s, table)
    case Print(p) => Build(p, table)
    case ArrayInit(es) => BuildSeq(node, es, table)
    case ArrayAccess(a, i) => BuildBoth(node, a, i, table)
    case _ => Ok(table)
  }

  /** Two children in order. */
  function BuildBoth(ghost parent: Node, a: Node, b: Node, table: Table): (r: Result<Table, BuildError>)
    requires a < parent && b < parent
    ensures r.Ok? ==> table.Keys <= r.value.Keys
    decreases parent, 1, 0
  {
    match Build(a, table)
    case Err(e) => Err(e)
    case Ok(t1) => Build(b, t1)
  }

  /** The `for` loops over children, left to right. */
  function BuildSeq(ghost parent: Node, ch: seq<Node>, table: Table): (r: Result<Table, BuildError>)
    requires forall c :: c in ch ==> c < parent
    ensures r.Ok? ==> table.Keys <= r.value.Keys
    decreases parent, 1, |ch|
  {
    if ch == [] then Ok(table)
    else
      assert ch[0] in ch;
      assert forall c :: c in ch[1..] ==> c in ch;
      match Build(ch[0], table)
      case Err(e) => Err(e)
      case Ok(t1) => BuildSeq(parent, ch[1..], t1)
  }

  // ---------------------------------------------------------------------
  // Properties

  /** A declaration succeeds exactly when its names are pairwise distinct
      and none is in the table yet. */
  lemma {:induction false} DeclareOkIff(vars: seq<Token>, table: Table)
    ensures Declare(vars, table).Ok? <==>
      (forall i :: 0 <= i < |vars| ==> vars[i].text !in table) &&
      (forall i, j :: 0 <= i < j < |vars| ==> vars[i].text != vars[j].text)
  {
    if vars != [] {
      var name := vars[0].text;
      var rest := vars[1..];
      var t1 := table[name := Symbol(name)];
      DeclareOkIff(rest, t1);
      assert forall i :: 0 <= i < |rest| ==> rest[i] == vars[i + 1];
      if name !in table && !Declare(rest, t1).Ok? {
        if exists i :: 0 <= i < |rest| && rest[i].text in t1 {
          var i :| 0 <= i < |rest| && rest[i].text in t1;
          if rest[i].text == name {
            assert vars[0].text == vars[i + 1].text;
          } else {
            assert vars[i + 1].text in table;
          }
        } else {
          var i, j :| 0 <= i < j < |rest| && rest[i].text == rest[j].text;
          assert vars[i + 1].text == vars[j + 1].text;
        }
      }
    }
  }

  /** A successful declaration adds exactly its names, each bound to the
      symbol of that name, and keeps every other entry. */
  lemma {:induction false} DeclareAddsExactlyItsNames(vars: seq<Token>, table: Table)
    requires Declare(vars, table).Ok?
    ensures Declare(vars, table).value.Keys == table.Keys + set i | 0 <= i < |vars| :: vars[i].text
    ensures forall i :: 0 <= i < |vars| ==> Declare(vars, table).value[vars[i].text] == Symbol(vars[i].text)
    ensures forall k :: k in table ==> Declare(vars, table).value[k] == table[k]
  {
    if vars != [] {
      var name := vars[0].text;
      var rest := vars[1..];
      var t1 := table[name := Symbol(name)];
      DeclareAddsExactlyItsNames(rest, t1);
      assert forall i :: 0 <= i < |rest| ==> rest[i] == vars[i + 1];
      var later := set i | 0 <= i < |rest| :: rest[i].text;
      var all := set i | 0 <= i < |vars| :: vars[i].text;
      assert all == {name} + later by {
        forall k | k in all ensures k in {name} + later {
          var i :| 0 <= i < |vars| && vars[i].text == k;
          if i > 0 {
            assert rest[i - 1].text == k;
          }
        }
        forall k | k in later ensures k in all {
          var i :| 0 <= i < |rest| && rest[i].text == k;
          assert vars[i + 1].text == k;
        }
      }
      assert name in t1 && t1[name] == Symbol(name);
    }
  }

  /** Two declarations of one name in a single statement: the second is
      rejected. */
  lemma DuplicateInOneDeclaration(t1: Token, t2: Token, assignments: seq<Node>, table: Table)
    requires t1.text == t2.text && t1.text !in table
    ensures Build(VariableDeclaration([t1, t2], assignments), table) == Err(AlreadyDeclared(t2))
  {
    var t := table[t1.text := Symbol(t1.text)];
    assert [t1, t2][1..] == [t2];
    assert Declare([t2], t) == Err(AlreadyDeclared(t2));
    assert Declare([t1, t2], table) == Declare([t2], t);
  }

  /** A name the table already holds cannot be declared again, even in the
      body of an if: the body shares the one table. */
  lemma RedeclarationInIfBodyRejected(cond: Node, t: Token, assignments: seq<Node>, elses: seq<Node>, table: Table)
    requires t.text in table
    requires Build(cond, table).Ok?
    ensures Build(IfCondition(cond, VariableDeclaration([t], assignments), elses), table) == Err(AlreadyDeclared(t))
  {
    var decl := VariableDeclaration([t], assignments);
    var node := IfCondition(cond, decl, elses);
    var t1 := Build(cond, table).value;
    assert t.text in t1;
    assert Build(decl, t1) == Declare([t], t1) == Err(AlreadyDeclared(t));
    assert Build(node, table) == BuildBoth(node, cond, decl, table);
  }

  /** One flat table: a name declared in an if body is still declared
      after the if. */
  lemma IfBodyDeclarationVisibleAfter(cond: Node, t: Token, use: Token, elses: seq<Node>, insideFunc: bool, table: Table)
    requires t.text !in table
    requires Build(cond, table) == Ok(table)
    ensures var decl := table[t.text := Symbol(t.text)];
      Build(Compound(insideFunc, [IfCondition(cond, VariableDeclaration([t], []), elses), Variable(use, t.text)]), table)
      == Ok(decl)
  {
    var decl := table[t.text := Symbol(t.text)];
    var body := VariableDeclaration([t], []);
    var ifNode := IfCondition(cond, body, elses);
    var use := Variable(use, t.text);
    var block := Compound(insideFunc, [ifNode, use]);
    assert Declare([t], table) == Ok(decl);
    assert Build(body, table) == Ok(decl);
    assert Build(ifNode, table) == BuildBoth(ifNode, cond, body, table);
    assert Build(ifNode, table) == Ok(decl);
    assert Build(use, decl) == Ok(decl);
    assert [ifNode, use][1..] == [use] && [use][1..] == [];
    assert BuildSeq(block, [use], decl) == Ok(decl);
  }

  /** visit_variable: a reference succeeds exactly when the name is in the
      table, and changes nothing. */
  lemma VariableResolvesIffDeclared(t: Token, name: string, table: Table)
    ensures Build(Variable(t, name), table) == (if name in table then Ok(table) else Err(NotDeclared(t)))
  {
  }

  /** visit_assign: the target must already be declared; the right-hand
      side is then visited in the same table. */
  lemma AssignTargetMustBeDeclared(t: Token, name: string, op: Token, right: Node, table: Table)
    ensures name !in table ==> Build(Assign(Variable(t, name), op, right), table) == Err(NotDeclared(t))
    ensures name in table ==> Build(Assign(Variable(t, name), op, right), table) == Build(right, table)
  {
  }

  /** Kinds outside the dispatch are skipped silently, children and all. */
  lemma UndispatchedKindsSkipped(node: Node, table: Table)
    requires !Dispatched(node)
    ensures Build(node, table) == Ok(table)
  {
  }

  // ---------------------------------------------------------------------
  // The builder over a real table

  /** What a visit reports: success, or the error that stops the walk;
      the table the walk produced is dropped. The table builder and the
      analyzer each state this over their own result type rather than
      through one generic function in Wrappers: the two walks produce
      different types, and the specialised form keeps the proofs of the
      visitor methods, which mention it in every postcondition, small. */
  function Outcome(c: Result<Table, BuildError>): (r: Result<(), BuildError>)
    ensures r.Ok? <==> c.Ok?
    ensures r.Err? ==> r.error == c.error
  {
    match c
    case Ok(_) => Ok(())
    case Err(e) => Err(e)
  }

  class SymbolTableBuilder {
    /** The single table; nothing encloses it. */
    const table: SymbolTable

    ghost predicate Valid()
    {
      table.Linked() && table.enclosingScope == null
    }

    /** SymbolTableBuilder::SymbolTableBuilder: one empty table. */
    constructor ()
      ensures Valid() && fresh(table) && table.symbols == map[]
    {
      table := new SymbolTable(0, null);
    }

    /** The names a lookup sees are exactly the table's own. */
    lemma LookupIsLocal(name: string)
      requires Valid()
      ensures table.Lookup(name, false).Some? <==> name in table.symbols
    {
      assert table.Maps() == [table.symbols];
    }

    /** visit: the outcome is the pure walk's, and on success the table
        holds what the walk computed. */
    method Visit(node: Node) returns (r: Result<(), BuildError>)
      requires Valid()
      modifies table
      ensures r == Outcome(Build(node, old(table.symbols)))
      ensures r.Ok? ==> table.symbols == Build(node, old(table.symbols)).value
      decreases node, 3, 0
    {
      match node {
        case BinaryOperator(l, _, rt) => r := VisitBoth(node, l, rt);
        case UnaryOperator(_, e) => r := Visit(e);
        case Value(_, _) => r := Ok(());
        case Compare(cs, _) => r := VisitAll(node, cs);
        case Compound(_, ch) => r := VisitAll(node, ch);
        case Assign(_, _, _) => r := VisitAssign(node);
        case Variable(t, name) => r := VisitVariable(t, name);
        case NoOperator => r := Ok(());
        case _ => r := VisitLaterKinds(node);
      }
    }

    /** The second half of visit's chain of kind tests; a kind that none
        of the tests matches does nothing. */
    method VisitLaterKinds(node: Node) returns (r: Result<(), BuildError>)
      requires !(node.BinaryOperator? || node.UnaryOperator? || node.Value? || node.Compare?)
      requires !(node.Compound? || node.Assign? || node.Variable? || node.NoOperator?)
      requires Valid()
      modifies table
      ensures r == Outcome(Build(node, old(table.symbols)))
      ensures r.Ok? ==> table.symbols == Build(node, old(table.symbols)).value
      decreases node, 2, 0
    {
      match node {
        case DoubleCondition(l, _, rt) => r := VisitBoth(node, l, rt);
        case Negation(_, s) => r := Visit(s);
        case VariableDeclaration(vars, _) => r := VisitVarDeclaration(vars);
        case IfCondition(c, s, _) => r := VisitBoth(node, c, s);
        case Print(p) => r := Visit(p);
        case ArrayInit(es) => r := VisitAll(node, es);
        case ArrayAccess(a, i) => r := VisitBoth(node, a, i);
        case _ => r := Ok(());
      }
    }

    /** Two children in order (binary operator, double condition, if
        condition and body, array access). */
    method VisitBoth(ghost parent: Node, a: Node, b: Node) returns (r: Result<(), BuildError>)
      requires a < parent && b < parent
      requires Valid()
      modifies table
      ensures r == Outcome(BuildBoth(parent, a, b, old(table.symbols)))
      ensures r.Ok? ==> table.symbols == BuildBoth(parent, a, b, old(table.symbols)).value
      decreases parent, 1, 0
    {
      r := Visit(a);
      if r.Err? {
        return;
      }
      r := Visit(b);
    }

    /** The `for` loops over children (compare, compound, array init). */
    method VisitAll(ghost parent: Node, ch: seq<Node>) returns (r: Result<(), BuildError>)
      requires forall c :: c in ch ==> c < parent
      requires Valid()
      modifies table
      ensures r == Outcome(BuildSeq(parent, ch, old(table.symbols)))
      ensures r.Ok? ==> table.symbols == BuildSeq(parent, ch, old(table.symbols)).value
      decreases parent, 1, |ch|
    {
      var i := 0;
      while i < |ch|
        invariant 0 <= i <= |ch|
        invariant forall c :: c in ch[i..] ==> c in ch
        invariant BuildSeq(parent, ch[i..], table.symbols) == BuildSeq(parent, ch, old(table.symbols))
      {
        assert ch[i..][0] == ch[i] && ch[i..][1..] == ch[i + 1..];
        assert ch[i] in ch;
        r := Visit(ch[i]);
        if r.Err? {
          return;
        }
        i := i + 1;
      }
      assert ch[i..] == [];
      r := Ok(());
    }

    /** visit_variable: the name must be in the table; nothing changes. */
    method VisitVariable(t: Token, name: string) returns (r: Result<(), BuildError>)
      requires Valid()
      ensures r == Outcome(Resolve(t, name, table.symbols))
    {
      LookupIsLocal(name);
      var symbol := table.Lookup(name, false);
      if symbol.None? {
        r := Err(NotDeclared(t));
      } else {
        r := Ok(());
      }
    }

    /** visit_assign: the target must be declared, then the right-hand side
        is visited. */
    method VisitAssign(node: Node) returns (r: Result<(), BuildError>)
      requires node.Assign?
      requires Valid()
      modifies table
      ensures r == Outcome(Build(node, old(table.symbols)))
      ensures r.Ok? ==> table.symbols == Build(node, old(table.symbols)).value
      decreases node, 1, 0
    {
      if !node.left.Variable? {
        return Err(TargetNotVariable);
      }
      r := VisitVariable(node.left.token, node.left.value);
      if r.Err? {
        return;
      }
      r := Visit(node.right);
    }

    /** visit_var_declaration: each name must be new to the table, and is
        then defined. */
    method VisitVarDeclaration(vars: seq<Token>) returns (r: Result<(), BuildError>)
      requires Valid()
      modifies table
      ensures r == Outcome(Declare(vars, old(table.symbols)))
      ensures r.Ok? ==> table.symbols == Declare(vars, old(table.symbols)).value
    {
      var i := 0;
      while i < |vars|
        invariant 0 <= i <= |vars|
        invariant Declare(vars[i..], table.symbols) == Declare(vars, old(table.symbols))
      {
        assert vars[i..][0] == vars[i] && vars[i..][1..] == vars[i + 1..];
        var name := vars[i].text;
        LookupIsLocal(name);
        if table.Lookup(name, false).Some? {
          return Err(AlreadyDeclared(vars[i]));
        }
        table.Define(Symbol(name));
        i := i + 1;
      }
      assert vars[i..] == [];
      r := Ok(());
    }
  }
}
