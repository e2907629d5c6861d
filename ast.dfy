/** The syntax tree built by the parser (parser/AST.cpp). Each C++ node class
    is one constructor; the fields are the ones its C++ constructor fills in. */
module Ast {
  import opened Wrappers
  import opened Tokens

  datatype Node =
    | Value(token: Token, value: string)
    | Variable(token: Token, value: string)
    | BinaryOperator(left: Node, op: Token, right: Node)
    | UnaryOperator(op: Token, expr: Node)
    | Assign(left: Node, op: Token, right: Node)
    | Compare(comparables: seq<Node>, operators: seq<Token>)
    | DoubleCondition(left: Node, op: Token, right: Node)
    | Negation(op: Token, statement: Node)
      /** `variables` holds the declared names' tokens (C++: Variable*),
          `assignments` the Assign nodes of the initialisers. */
    | VariableDeclaration(variables: seq<Token>, assignments: seq<Node>)
    | IfCondition(condition: Node, statement: Node, elses: seq<Node>)
    | WhileLoop(condition: Node, statement: Node)
    | Print(printable: Node)
    | ArrayInit(elements: seq<Node>)
    | ArrayAccess(array: Node, index: Node)
      /** `params` is NULL (None) when the function has no parameters. */
    | FunctionInit(funcName: string, params: Option<Node>, block: Node)
    | FunctionCall(callee: Node, args: seq<Node>)
    | Return(token: Token, returnable: Node)
    | Compound(insideFunc: bool, children: seq<Node>)
    | ClassInit(className: string, block: Node)
    | CastValue(castee: Node, castType: Token)
    | Import(token: Token, path: string, name: string)
    | ObjectDive(parent: Node, colon: Token, child: Token)
    | NoOperator

  /** The diagnostic token (the `token` field of the AST base class) that a
      constructor sets; None where the constructor leaves it unset. */
  function Diagnostic(n: Node): (r: Option<Token>) {
    match n
    case Value(t, _) => Some(t)
    case Variable(t, _) => Some(t)
    case BinaryOperator(_, op, _) => Some(op)
    case UnaryOperator(op, _) => Some(op)
    case Assign(_, op, _) => Some(op)
    case DoubleCondition(_, op, _) => Some(op)
    case Negation(op, _) => Some(op)
    case Return(t, _) => Some(t)
    case CastValue(_, t) => Some(t)
    case Import(t, _, _) => Some(t)
    case ObjectDive(_, colon, _) => Some(colon)
    case _ => None
  }

  /** The `value` string field of the AST base class: set from the token by
      the Value and Variable constructors, empty (default-constructed) in
      every other node. */
  function ValueField(n: Node): (r: string) {
    if n.Value? || n.Variable? then n.value else ""
  }

  /** Value::Value. */
  function NewValue(token: Token): (n: Node)
    ensures n.Value? && n.token == token
    ensures ValueField(n) == token.text && Diagnostic(n) == Some(token)
  {
    Value(token, token.text)
  }

  /** Variable::Variable. */
  function NewVariable(token: Token): (n: Node)
    ensures n.Variable? && n.token == token
    ensures ValueField(n) == token.text && Diagnostic(n) == Some(token)
  {
    Variable(token, token.text)
  }

  /** BinaryOperator::BinaryOperator: the operator token is the diagnostic token. */
  function NewBinaryOperator(left: Node, op: Token, right: Node): (n: Node)
    ensures n.BinaryOperator? && n.left == left && n.right == right
    ensures Diagnostic(n) == Some(op) && ValueField(n) == ""
  {
    BinaryOperator(left, op, right)
  }

  /** UnaryOperator::UnaryOperator. */
  function NewUnaryOperator(op: Token, expr: Node): (n: Node)
    ensures n.UnaryOperator? && n.expr == expr
    ensures Diagnostic(n) == Some(op) && ValueField(n) == ""
  {
    UnaryOperator(op, expr)
  }

  /** Assign::Assign. */
  function NewAssign(left: Node, op: Token, right: Node): (n: Node)
    ensures n.Assign? && n.left == left && n.right == right
    ensures Diagnostic(n) == Some(op) && ValueField(n) == ""
  {
    Assign(left, op, right)
  }

  /** DoubleCondition::DoubleCondition. */
  function NewDoubleCondition(left: Node, op: Token, right: Node): (n: Node)
    ensures n.DoubleCondition? && n.left == left && n.right == right
    ensures Diagnostic(n) == Some(op) && ValueField(n) == ""
  {
    DoubleCondition(left, op, right)
  }

  /** Negation::Negation. */
  function NewNegation(op: Token, statement: Node): (n: Node)
    ensures n.Negation? && n.statement == statement
    ensures Diagnostic(n) == Some(op) && ValueField(n) == ""
  {
    Negation(op, statement)
  }

  /** Compound::Compound followed by the assignment of its children. */
  function NewCompound(insideFunc: bool, children: seq<Node>): (n: Node)
    ensures n.Compound? && n.insideFunc == insideFunc && n.children == children
    ensures Diagnostic(n) == None
  {
    Compound(insideFunc, children)
  }

  /** CastValue::CastValue: the target-type token is the diagnostic token. */
  function NewCastValue(castee: Node, castType: Token): (n: Node)
    ensures n.CastValue? && n.castee == castee && n.castType == castType
    ensures Diagnostic(n) == Some(castType)
  {
    CastValue(castee, castType)
  }

  /** Import::Import: stores the path token's text; the path token is the
      diagnostic token. */
  function NewImport(path: Token, name: string): (n: Node)
    ensures n.Import? && n.path == path.text && n.name == name
    ensures Diagnostic(n) == Some(path)
  {
    Import(path, path.text, name)
  }

  /** ObjectDive::ObjectDive: the colon token is the diagnostic token. */
  function NewObjectDive(parent: Node, colon: Token, child: Token): (n: Node)
    ensures n.ObjectDive? && n.parent == parent && n.child == child
    ensures Diagnostic(n) == Some(colon)
  {
    ObjectDive(parent, colon, child)
  }

  /** Return::Return. */
  function NewReturn(token: Token, returnable: Node): (n: Node)
    ensures n.Return? && n.returnable == returnable
    ensures Diagnostic(n) == Some(token)
  {
    Return(token, returnable)
  }
}
