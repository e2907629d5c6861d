/** The tree-walking evaluator (interpreter/Interpreter.cpp). Every value is
    a MemoryValue: a text and a type tag. Literals keep their token's text,
    comparisons and logical operators produce the texts "True" and "False",
    an assignment stores the right-hand side's value under the target's name
    in the single flat memory, and statements yield no value (NULL).

    The pure function Eval says what a visit yields and what it leaves in
    the memory; the Interpreter class is proved to do exactly that to a real
    Memory. Floating-point parsing, arithmetic and formatting are not
    modelled: they are the parameters collected in Runtime. */
module Evaluation {
  import opened Wrappers
  import opened Tokens
  import opened Ast
  import opened MemoryFlat

  type Mem = map<string, Option<MemoryValue>>

  /** What the model leaves to the platform: whether std::stod accepts a
      text, the text std::to_string gives for `x op y` (None where C++
      gives no defined result, such as an int division by zero), the text
      of a negated number, and the tag an uninitialised `Type` variable
      happens to hold. */
  datatype Runtime = Runtime(
    parses: string -> bool,
    binary: (TokenKind, string, string) -> Option<string>,
    negate: string -> string,
    untagged: Type)

  /** How evaluation stops. */
  datatype EvalError =
      /** visit_variable: "Name error: <name>", then exit. */
    | NameError(name: string)
      /** `->value` on a NULL result (a statement used as an operand). */
    | NullValue
      /** std::stod rejects the text and throws. */
    | NotANumber(text: string)
      /** The platform gives no result for the arithmetic. */
    | NoArithmeticResult
      /** A comparison reads a comparable past the end of the list. */
    | MissingOperand
      /** Control reaches the end of a value-returning function without a
          return: an unlisted node kind, an operator outside the switch, a
          double condition that is neither `and` nor `or`, a negation of a
          text other than "True" or "False". */
    | NoResult

  /** The result of a successful visit: the value (None for NULL) and the
      memory afterwards. */
  datatype Done = Done(value: Option<MemoryValue>, memory: Mem)

  const TrueValue := MemoryValue("True", BooleanType)
  const FalseValue := MemoryValue("False", BooleanType)

  /** The boolean result `visit_compare` and `visit_double_condition` build. */
  function BoolValue(b: bool): (v: MemoryValue)
    ensures v.kind == BooleanType && (v.value == "True" <==> b) && (v.value == "False" <==> !b)
  {
    if b then TrueValue else FalseValue
  }

  /** The operator kinds visit_binary_op's switch handles. */
  predicate IsArithmetic(k: TokenKind)
  {
    k == Plus || k == Minus || k == Div || k == Mult || k == IntDiv || k == Modulo
  }

  /** visit_value: the node's text with the tag its token's kind selects. */
  function ValueOf(token: Token, text: string, rt: Runtime): (v: MemoryValue)
    ensures v.value == text
    ensures token.kind == Float ==> v.kind == FloatType
    ensures token.kind == Boolean ==> v.kind == BooleanType
    ensures token.kind == String ==> v.kind == StringType
    ensures !(token.kind in {Float, Boolean, String}) ==> v.kind == rt.untagged
  {
    var kind :=
      if token.kind == Float then FloatType
      else if token.kind == Boolean then BooleanType
      else if token.kind == String then StringType
      else rt.untagged;
    MemoryValue(text, kind)
  }

  /** visit: the dispatch on the node's kind. A node that yields a value
      leaves the memory as it was. */
  function Eval(node: Node, mem: Mem, rt: Runtime): (r: Result<Done, EvalError>)
    ensures r.Ok? && r.value.value.Some? ==> r.value.memory == mem
    decreases node, 2, 0
  {
    match node
    case BinaryOperator(l, op, rt_) =>
      (match Text(node, l, mem, rt)
       case Err(e) => Err(e)
       case Ok(x) =>
         if !rt.parses(x) then Err(NotANumber(x))
         else
           match Text(node, rt_, mem, rt)
           case Err(e) => Err(e)
           case Ok(y) =>
             if !rt.parses(y) then Err(NotANumber(y))
             else if !IsArithmetic(op.kind) then Err(NoResult)
             else
               match rt.binary(op.kind, x, y)
               case None => Err(NoArithmeticResult)
               case Some(z) => Ok(Done(Some(MemoryValue(z, FloatType)), mem)))
    case UnaryOperator(op, e) =>
      if op.kind == Minus then
        match Text(node, e, mem, rt)
        case Err(err) => Err(err)
        case Ok(x) =>
          if !rt.parses(x) then Err(NotANumber(x))
          else Ok(Done(Some(MemoryValue(rt.negate(x), FloatType)), mem))
      else Eval(e, mem, rt)
    case Value(t, v) => Ok(Done(Some(ValueOf(t, v, rt)), mem))
    case Compare(cs, ops) =>
      (match CompareFrom(node, cs, ops, 0, mem, rt)
       case Err(e) => Err(e)
       case Ok(b) => Ok(Done(Some(BoolValue(b)), mem)))
    case Compound(_, ch) =>
      (match EvalSeq(node, ch, mem, rt)
       case Err(e) => Err(e)
       case Ok(m) => Ok(Done(None, m)))
    case Assign(left, _, right) =>
      (match Eval(right, mem, rt)
       case Err(e) => Err(e)
       case Ok(d) => Ok(Done(None, d.memory[ValueField(left) := d.value])))
    case Variable(_, name) =>
      if name in mem && mem[name].Some? then Ok(Done(mem[name], mem)) else Err(NameError(name))
    case NoOperator => Ok(Done(None, mem))
    case DoubleCondition(l, op, rt_) =>
      if op.kind == And then
        match Text(node, l, mem, rt)
        case Err(e) => Err(e)
        case Ok(x) =>
          if x != "True" then Ok(Done(Some(FalseValue), mem))
          else
            match Text(node, rt_, mem, rt)
            case Err(e) => Err(e)
            case Ok(y) => Ok(Done(Some(BoolValue(y == "True")), mem))
      else if op.kind == Or then
        match Text(node, l, mem, rt)
        case Err(e) => Err(e)
        case Ok(x) =>
          if x == "True" then Ok(Done(Some(TrueValue), mem))
          else
            match Text(node, rt_, mem, rt)
            case Err(e) => Err(e)
            case Ok(y) => Ok(Done(Some(BoolValue(y == "True")), mem))
      else Err(NoResult)
    case Negation(_, s) =>
      (match Text(node, s, mem, rt)
       case Err(e) => Err(e)
       case Ok(x) =>
         if x == "True" then Ok(Done(Some(FalseValue), mem))
         else if x == "False" then Ok(Done(Some(TrueValue), mem))
         else Err(NoResult))
    case VariableDeclaration(_, _) => Ok(Done(None, mem))
    case _ => Err(NoResult)
  }

  /** `visit(e)->value`: the text of an operand's value; a NULL result is
      dereferenced. The memory is unchanged whenever a text comes back (see
      Eval's ensures), so only the text is kept. */
  function Text(ghost parent: Node, e: Node, mem: Mem, rt: Runtime): (r: Result<string, EvalError>)
    requires e < parent
    decreases parent, 0, 0
  {
    match Eval(e, mem, rt)
    case Err(err) => Err(err)
    case Ok(Done(None, _)) => Err(NullValue)
    case Ok(Done(Some(v), _)) => Ok(v.value)
  }

  /** The loop of visit_compare from operator i on: `is` and `isnt` compare
      the texts of their two neighbours and stop with false at the first
      that fails; the ordering operators are passed over without visiting
      anything. */
  function CompareFrom(ghost parent: Node, cs: seq<Node>, ops: seq<Token>, i: nat, mem: Mem, rt: Runtime): (r: Result<bool, EvalError>)
    requires forall c :: c in cs ==> c < parent
    ensures (forall j :: i <= j < |ops| ==> ops[j].kind != Equals && ops[j].kind != NotEquals) ==>
              r == if i < |ops| && |cs| <= |ops| then Err(MissingOperand) else Ok(true)
    decreases parent, 1, |ops| - i
  {
    if i >= |ops| then Ok(true)
    else if i + 1 >= |cs| then Err(MissingOperand)
    else
      assert cs[i] in cs && cs[i + 1] in cs;
      if ops[i].kind == Equals || ops[i].kind == NotEquals then
        match Text(parent, cs[i], mem, rt)
        case Err(e) => Err(e)
        case Ok(x) =>
          match Text(parent, cs[i + 1], mem, rt)
          case Err(e) => Err(e)
          case Ok(y) =>
            if (ops[i].kind == Equals) != (x == y) then Ok(false)
            else CompareFrom(parent, cs, ops, i + 1, mem, rt)
      else CompareFrom(parent, cs, ops, i + 1, mem, rt)
  }

  /** The loop of visit_compound: each child in turn, results dropped. */
  function EvalSeq(ghost parent: Node, ch: seq<Node>, mem: Mem, rt: Runtime): (r: Result<Mem, EvalError>)
    requires forall c :: c in ch ==> c < parent
    decreases parent, 1, |ch|
  {
    if ch == [] then Ok(mem)
    else
      assert ch[0] in ch;
      assert forall c :: c in ch[1..] ==> c in ch;
      match Eval(ch[0], mem, rt)
      case Err(e) => Err(e)
      case Ok(d) => EvalSeq(parent, ch[1..], d.memory, rt)
  }

  // ---------------------------------------------------------------------
  // Properties

  /** `e` yields a value with text `text` and leaves the memory alone. */
  predicate EvalsTo(e: Node, mem: Mem, rt: Runtime, text: string)
  {
    && Eval(e, mem, rt).Ok?
    && Eval(e, mem, rt).value.value.Some?
    && Eval(e, mem, rt).value.value.value.value == text
  }

  /** One link of a chain: `is` joins equal texts, `isnt` different ones,
      and the ordering operators constrain nothing. */
  predicate LinkHolds(op: Token, x: string, y: string)
  {
    (op.kind == Equals ==> x == y) && (op.kind == NotEquals ==> x != y)
  }

  /** The chain `c0 op0 c1 op1 c2 ...` holds for the given texts from
      operator i on. */
  predicate ChainHoldsFrom(ops: seq<Token>, texts: seq<string>, i: nat)
    requires |texts| == |ops| + 1
  {
    forall k :: i <= k < |ops| ==> LinkHolds(ops[k], texts[k], texts[k + 1])
  }

  lemma {:induction false} CompareFromHolds(parent: Node, cs: seq<Node>, ops: seq<Token>, i: nat, mem: Mem, rt: Runtime, texts: seq<string>)
    requires forall c :: c in cs ==> c < parent
    requires |cs| == |ops| + 1 && |texts| == |cs| && i <= |ops|
    requires forall k :: 0 <= k < |cs| ==> cs[k] < parent && Text(parent, cs[k], mem, rt) == Ok(texts[k])
    ensures CompareFrom(parent, cs, ops, i, mem, rt) == Ok(ChainHoldsFrom(ops, texts, i))
    decreases |ops| - i
  {
    if i < |ops| {
      CompareFromHolds(parent, cs, ops, i + 1, mem, rt, texts);
      CompareHoldsStep(parent, cs, ops, i, mem, rt, texts);
    } else {
      CompareHoldsAtEnd(parent, cs, ops, mem, rt, texts);
    }
  }

  /** Past the last operator the chain holds and the loop gives true. */
  lemma CompareHoldsAtEnd(parent: Node, cs: seq<Node>, ops: seq<Token>, mem: Mem, rt: Runtime, texts: seq<string>)
    requires forall c :: c in cs ==> c < parent
    requires |texts| == |ops| + 1
    ensures CompareFrom(parent, cs, ops, |ops|, mem, rt) == Ok(ChainHoldsFrom(ops, texts, |ops|))
  {
  }

  /** CompareFromHolds at operator i, given it at operator i + 1. */
  lemma CompareHoldsStep(parent: Node, cs: seq<Node>, ops: seq<Token>, i: nat, mem: Mem, rt: Runtime, texts: seq<string>)
    requires forall c :: c in cs ==> c < parent
    requires |cs| == |ops| + 1 && |texts| == |cs| && i < |ops|
    requires forall k :: 0 <= k < |cs| ==> cs[k] < parent && Text(parent, cs[k], mem, rt) == Ok(texts[k])
    requires CompareFrom(parent, cs, ops, i + 1, mem, rt) == Ok(ChainHoldsFrom(ops, texts, i + 1))
    ensures CompareFrom(parent, cs, ops, i, mem, rt) == Ok(ChainHoldsFrom(ops, texts, i))
  {
    assert Text(parent, cs[i], mem, rt) == Ok(texts[i]);
    assert Text(parent, cs[i + 1], mem, rt) == Ok(texts[i + 1]);
    CompareStep(parent, cs, ops, i, mem, rt, texts[i], texts[i + 1]);
    ChainHoldsStep(ops, texts, i);
  }

  /** The chain holds from operator i on exactly when link i holds and the
      chain holds from i + 1 on. */
  lemma ChainHoldsStep(ops: seq<Token>, texts: seq<string>, i: nat)
    requires |texts| == |ops| + 1 && i < |ops|
    ensures ChainHoldsFrom(ops, texts, i) <==> LinkHolds(ops[i], texts[i], texts[i + 1]) && ChainHoldsFrom(ops, texts, i + 1)
  {
  }

  /** One turn of visit_compare's loop, for operands that yield texts. */
  lemma CompareStep(parent: Node, cs: seq<Node>, ops: seq<Token>, i: nat, mem: Mem, rt: Runtime, x: string, y: string)
    requires forall c :: c in cs ==> c < parent
    requires i < |ops| && i + 1 < |cs|
    requires cs[i] < parent && cs[i + 1] < parent
    requires Text(parent, cs[i], mem, rt) == Ok(x) && Text(parent, cs[i + 1], mem, rt) == Ok(y)
    ensures CompareFrom(parent, cs, ops, i, mem, rt) ==
      if LinkHolds(ops[i], x, y) then CompareFrom(parent, cs, ops, i + 1, mem, rt) else Ok(false)
  {
  }

  /** visit_compare on a well-formed comparison whose operands yield texts:
      the result is "True" exactly when the whole chain holds. */
  lemma CompareIffChainHolds(cs: seq<Node>, ops: seq<Token>, mem: Mem, rt: Runtime, texts: seq<string>)
    requires |cs| == |ops| + 1 && |texts| == |cs|
    requires forall k :: 0 <= k < |cs| ==> EvalsTo(cs[k], mem, rt, texts[k])
    ensures Eval(Compare(cs, ops), mem, rt) == Ok(Done(Some(BoolValue(ChainHoldsFrom(ops, texts, 0))), mem))
  {
    var node := Compare(cs, ops);
    forall k | 0 <= k < |cs|
      ensures Text(node, cs[k], mem, rt) == Ok(texts[k])
    {
      assert EvalsTo(cs[k], mem, rt, texts[k]);
    }
    CompareFromHolds(node, cs, ops, 0, mem, rt, texts);
  }

  /** `and`: a left operand other than "True" gives "False" without
      visiting the right one, which may then even be undeclared. */
  lemma AndShortCircuits(l: Node, op: Token, r: Node, mem: Mem, rt: Runtime, x: string)
    requires op.kind == And && EvalsTo(l, mem, rt, x) && x != "True"
    ensures Eval(DoubleCondition(l, op, r), mem, rt) == Ok(Done(Some(FalseValue), mem))
  {
    assert Text(DoubleCondition(l, op, r), l, mem, rt) == Ok(x);
  }

  /** `or`: a left operand "True" gives "True" without visiting the right
      one. */
  lemma OrShortCircuits(l: Node, op: Token, r: Node, mem: Mem, rt: Runtime)
    requires op.kind == Or && EvalsTo(l, mem, rt, "True")
    ensures Eval(DoubleCondition(l, op, r), mem, rt) == Ok(Done(Some(TrueValue), mem))
  {
    assert Text(DoubleCondition(l, op, r), l, mem, rt) == Ok("True");
  }

  /** With both operands yielding texts, `and` and `or` are the boolean
      connectives over "is the text exactly True". */
  lemma DoubleConditionTruthTable(l: Node, op: Token, r: Node, mem: Mem, rt: Runtime, x: string, y: string)
    requires op.kind == And || op.kind == Or
    requires EvalsTo(l, mem, rt, x) && EvalsTo(r, mem, rt, y)
    ensures Eval(DoubleCondition(l, op, r), mem, rt) ==
      Ok(Done(Some(BoolValue(if op.kind == And then x == "True" && y == "True" else x == "True" || y == "True")), mem))
  {
    var node := DoubleCondition(l, op, r);
    assert Text(node, l, mem, rt) == Ok(x);
    assert Text(node, r, mem, rt) == Ok(y);
  }

  /** `not not e` gives back e's text, tagged BOOLEAN, when that text is a
      boolean; any other text makes the inner negation fall off its end. */
  lemma DoubleNegation(op1: Token, op2: Token, e: Node, mem: Mem, rt: Runtime, x: string)
    requires EvalsTo(e, mem, rt, x)
    ensures x == "True" || x == "False" ==>
      Eval(Negation(op1, Negation(op2, e)), mem, rt) == Ok(Done(Some(MemoryValue(x, BooleanType)), mem))
    ensures !(x == "True" || x == "False") ==>
      Eval(Negation(op1, Negation(op2, e)), mem, rt) == Err(NoResult)
  {
    var inner := Negation(op2, e);
    assert Text(inner, e, mem, rt) == Ok(x);
    if x == "True" || x == "False" {
      assert Text(Negation(op1, inner), inner, mem, rt) == Ok(if x == "True" then "False" else "True");
    } else {
      assert Eval(inner, mem, rt) == Err(NoResult);
      assert Text(Negation(op1, inner), inner, mem, rt) == Err(NoResult);
    }
  }

  /** Unary plus passes its operand's result through unchanged, tag and
      all; unary minus always tags FLOAT. */
  lemma UnaryPlusIsIdentity(op: Token, e: Node, mem: Mem, rt: Runtime)
    requires op.kind != Minus
    ensures Eval(UnaryOperator(op, e), mem, rt) == Eval(e, mem, rt)
  {
  }

  /** A literal keeps its token's text; the tag follows the token's kind. */
  lemma LiteralKeepsText(t: Token, mem: Mem, rt: Runtime)
    ensures Eval(NewValue(t), mem, rt).Ok?
    ensures Eval(NewValue(t), mem, rt).value.value == Some(ValueOf(t, t.text, rt))
    ensures Eval(NewValue(t), mem, rt).value.memory == mem
  {
  }

  /** Reading an unbound name, or one bound to NULL, is a NameError. */
  lemma UnboundReadIsNameError(t: Token, name: string, mem: Mem, rt: Runtime)
    ensures (name !in mem || mem[name].None?) <==> Eval(Variable(t, name), mem, rt) == Err(NameError(name))
    ensures name in mem && mem[name].Some? ==> Eval(Variable(t, name), mem, rt) == Ok(Done(mem[name], mem))
  {
  }

  /** After `n = e`, reading n gives e's value, and every other binding is
      as before. */
  lemma AssignThenRead(t: Token, n: string, op: Token, e: Node, u: Token, mem: Mem, rt: Runtime)
    requires Eval(e, mem, rt).Ok? && Eval(e, mem, rt).value.value.Some?
    ensures var after := Eval(Assign(NewVariable(t), op, e), mem, rt);
      && after.Ok? && after.value.value.None?
      && Eval(Variable(u, t.text), after.value.memory, rt) == Ok(Done(Eval(e, mem, rt).value.value, after.value.memory))
      && forall m :: m != t.text ==> (m in after.value.memory <==> m in mem) && (m in mem ==> after.value.memory[m] == mem[m])
  {
  }

  /** One step of the walk: the first child, then the rest. */
  lemma EvalSeqStep(parent: Node, ch: seq<Node>, mem: Mem, rt: Runtime)
    requires ch != [] && forall c :: c in ch ==> c < parent
    ensures forall c :: c in ch[1..] ==> c < parent
    ensures var first := Eval(ch[0], mem, rt);
      EvalSeq(parent, ch, mem, rt) ==
        if first.Err? then Err(first.error) else EvalSeq(parent, ch[1..], first.value.memory, rt)
  {
    assert forall c :: c in ch[1..] ==> c in ch;
  }

  /** The walk does not depend on the node that bounds its children. */
  lemma {:induction false} EvalSeqParentFree(p1: Node, p2: Node, ch: seq<Node>, mem: Mem, rt: Runtime)
    requires forall c :: c in ch ==> c < p1
    requires forall c :: c in ch ==> c < p2
    ensures EvalSeq(p1, ch, mem, rt) == EvalSeq(p2, ch, mem, rt)
    decreases |ch|
  {
    if ch != [] {
      EvalSeqStep(p1, ch, mem, rt);
      EvalSeqStep(p2, ch, mem, rt);
      var first := Eval(ch[0], mem, rt);
      if first.Ok? {
        EvalSeqParentFree(p1, p2, ch[1..], first.value.memory, rt);
      }
    }
  }

  /** Walking `xs + ys` walks `xs`, then `ys` in the memory `xs` left; the
      first failure ends the walk. */
  lemma {:induction false} EvalSeqAppend(parent: Node, xs: seq<Node>, ys: seq<Node>, mem: Mem, rt: Runtime)
    requires forall c :: c in xs ==> c < parent
    requires forall c :: c in ys ==> c < parent
    ensures EvalSeq(parent, xs + ys, mem, rt) ==
      match EvalSeq(parent, xs, mem, rt)
      case Err(e) => Err(e)
      case Ok(m) => EvalSeq(parent, ys, m, rt)
    decreases |xs|
  {
    if xs == [] {
      assert xs + ys == ys;
    } else {
      assert (xs + ys)[0] == xs[0];
      assert (xs + ys)[1..] == xs[1..] + ys;
      assert forall c :: c in xs[1..] ==> c in xs;
      match Eval(xs[0], mem, rt)
      case Err(e) =>
      case Ok(d) => EvalSeqAppend(parent, xs[1..], ys, d.memory, rt);
    }
  }

  /** A block yields no value; running the children `xs + ys` is running
      the block of `xs`, then the block of `ys` in the memory it left, and
      a failing child stops the block with its error. */
  lemma CompoundRunsChildrenInOrder(insideFunc: bool, xs: seq<Node>, ys: seq<Node>, mem: Mem, rt: Runtime)
    ensures Eval(Compound(insideFunc, xs + ys), mem, rt) ==
      match Eval(Compound(insideFunc, xs), mem, rt)
      case Err(e) => Err(e)
      case Ok(d) => Eval(Compound(insideFunc, ys), d.memory, rt)
    ensures Eval(Compound(insideFunc, xs + ys), mem, rt).Ok? ==>
      Eval(Compound(insideFunc, xs + ys), mem, rt).value.value.None?
  {
    var whole := Compound(insideFunc, xs + ys);
    assert forall c :: c in xs ==> c in xs + ys;
    assert forall c :: c in ys ==> c in xs + ys;
    EvalSeqAppend(whole, xs, ys, mem, rt);
    EvalSeqParentFree(whole, Compound(insideFunc, xs), xs, mem, rt);
    match EvalSeq(whole, xs, mem, rt)
    case Err(e) =>
    case Ok(m) => EvalSeqParentFree(whole, Compound(insideFunc, ys), ys, m, rt);
  }

  /** A block of one child runs it and drops its value. */
  lemma CompoundOfOne(insideFunc: bool, a: Node, mem: Mem, rt: Runtime)
    ensures Eval(Compound(insideFunc, [a]), mem, rt) ==
      match Eval(a, mem, rt)
      case Err(e) => Err(e)
      case Ok(d) => Ok(Done(None, d.memory))
  {
    var node := Compound(insideFunc, [a]);
    assert [a][1..] == [];
    match Eval(a, mem, rt)
    case Err(e) =>
    case Ok(d) => assert EvalSeq(node, [a], mem, rt) == EvalSeq(node, [], d.memory, rt);
  }

  /** visit_var_declaration does nothing: the initialisers are not run. */
  lemma DeclarationIsNoOp(vars: seq<Token>, assignments: seq<Node>, mem: Mem, rt: Runtime)
    ensures Eval(VariableDeclaration(vars, assignments), mem, rt) == Ok(Done(None, mem))
  {
  }

  // ---------------------------------------------------------------------
  // The evaluator over a real memory

  /** What `visit` returns: the value pointer, or the error. */
  function Returned(r: Result<Done, EvalError>): (v: Result<Option<MemoryValue>, EvalError>)
    ensures v.Ok? <==> r.Ok?
    ensures v.Ok? ==> v.value == r.value.value
    ensures v.Err? ==> v.error == r.error
  {
    match r
    case Ok(d) => Ok(d.value)
    case Err(e) => Err(e)
  }

  class Interpreter {
    const globalMemory: Memory
    const runtime: Runtime

    /** Interpreter::Interpreter: an empty global memory. The lexer, parser
        and builder it also creates are modelled in their own modules. */
    constructor (runtime: Runtime)
      ensures fresh(globalMemory) && globalMemory.values == map[] && this.runtime == runtime
    {
      globalMemory := new Memory();
      this.runtime := runtime;
    }

    /** visit: the result is Eval's, and so is the memory afterwards. */
    method Visit(node: Node) returns (r: Result<Option<MemoryValue>, EvalError>)
      modifies globalMemory
      ensures r == Returned(Eval(node, old(globalMemory.values), runtime))
      ensures r.Ok? ==> globalMemory.values == Eval(node, old(globalMemory.values), runtime).value.memory
      decreases node, 2, 0
    {
      match node {
        case BinaryOperator(_, _, _) => r := VisitBinaryOp(node);
        case UnaryOperator(_, _) => r := VisitUnaryOp(node);
        case Value(t, v) => r := Ok(Some(ValueOf(t, v, runtime)));
        case Compare(cs, ops) => r := VisitCompare(node);
        case Compound(_, ch) => r := VisitCompound(node);
        case Assign(_, _, _) => r := VisitAssign(node);
        case Variable(_, name) => r := VisitVariable(name);
        case NoOperator => r := Ok(None);
        case DoubleCondition(_, _, _) => r := VisitDoubleCondition(node);
        case Negation(_, _) => r := VisitNegation(node);
        case VariableDeclaration(_, _) => r := Ok(None);
        case _ => r := Err(NoResult);
      }
    }

    /** `visit(e)->value`. */
    method VisitText(ghost parent: Node, e: Node) returns (r: Result<string, EvalError>)
      requires e < parent
      modifies globalMemory
      ensures r == Text(parent, e, old(globalMemory.values), runtime)
      ensures r.Ok? ==> globalMemory.values == old(globalMemory.values)
      decreases parent, 0, 0
    {
      var v := Visit(e);
      if v.Err? {
        return Err(v.error);
      }
      if v.value.None? {
        return Err(NullValue);
      }
      r := Ok(v.value.value.value);
    }

    /** visit_binary_op: both operands as numbers, then the operator. */
    method VisitBinaryOp(node: Node) returns (r: Result<Option<MemoryValue>, EvalError>)
      requires node.BinaryOperator?
      modifies globalMemory
      ensures r == Returned(Eval(node, old(globalMemory.values), runtime))
      ensures r.Ok? ==> globalMemory.values == old(globalMemory.values)
      decreases node, 1, 0
    {
      var x := VisitText(node, node.left);
      if x.Err? {
        return Err(x.error);
      }
      if !runtime.parses(x.value) {
        return Err(NotANumber(x.value));
      }
      var y := VisitText(node, node.right);
      if y.Err? {
        return Err(y.error);
      }
      if !runtime.parses(y.value) {
        return Err(NotANumber(y.value));
      }
      if !IsArithmetic(node.op.kind) {
        return Err(NoResult);
      }
      var z := runtime.binary(node.op.kind, x.value, y.value);
      if z.None? {
        return Err(NoArithmeticResult);
      }
      r := Ok(Some(MemoryValue(z.value, FloatType)));
    }

    /** visit_unary_op: minus negates a number; anything else passes the
        operand's result through. */
    method VisitUnaryOp(node: Node) returns (r: Result<Option<MemoryValue>, EvalError>)
      requires node.UnaryOperator?
      modifies globalMemory
      ensures r == Returned(Eval(node, old(globalMemory.values), runtime))
      ensures r.Ok? ==> globalMemory.values == Eval(node, old(globalMemory.values), runtime).value.memory
      decreases node, 1, 0
    {
      if node.op.TypeOf(Minus) {
        var x := VisitText(node, node.expr);
        if x.Err? {
          return Err(x.error);
        }
        if !runtime.parses(x.value) {
          return Err(NotANumber(x.value));
        }
        return Ok(Some(MemoryValue(runtime.negate(x.value), FloatType)));
      }
      r := Visit(node.expr);
    }

    /** visit_compare: the loop over the operators. */
    method VisitCompare(node: Node) returns (r: Result<Option<MemoryValue>, EvalError>)
      requires node.Compare?
      modifies globalMemory
      ensures r == Returned(Eval(node, old(globalMemory.values), runtime))
      ensures r.Ok? ==> globalMemory.values == old(globalMemory.values)
      decreases node, 1, 0
    {
      var cs := node.comparables;
      var ops := node.operators;
      ghost var mem := globalMemory.values;
      var i := 0;
      while i < |ops|
        invariant 0 <= i <= |ops|
        invariant globalMemory.values == mem
        invariant CompareFrom(node, cs, ops, i, mem, runtime) == CompareFrom(node, cs, ops, 0, mem, runtime)
      {
        if i + 1 >= |cs| {
          return Err(MissingOperand);
        }
        assert cs[i] in cs && cs[i + 1] in cs;
        if ops[i].TypeOf(Equals) || ops[i].TypeOf(NotEquals) {
          var x := VisitText(node, cs[i]);
          if x.Err? {
            return Err(x.error);
          }
          var y := VisitText(node, cs[i + 1]);
          if y.Err? {
            return Err(y.error);
          }
          if ops[i].TypeOf(Equals) && x.value != y.value {
            return Ok(Some(FalseValue));
          }
          if ops[i].TypeOf(NotEquals) && x.value == y.value {
            return Ok(Some(FalseValue));
          }
        }
        i := i + 1;
      }
      r := Ok(Some(TrueValue));
    }

    /** visit_compound: each child in turn; the block yields NULL. */
    method VisitCompound(node: Node) returns (r: Result<Option<MemoryValue>, EvalError>)
      requires node.Compound?
      modifies globalMemory
      ensures r == Returned(Eval(node, old(globalMemory.values), runtime))
      ensures r.Ok? ==> globalMemory.values == Eval(node, old(globalMemory.values), runtime).value.memory
      decreases node, 1, 0
    {
      var ch := node.children;
      var i := 0;
      while i < |ch|
        invariant 0 <= i <= |ch|
        invariant forall c :: c in ch[i..] ==> c in ch
        invariant EvalSeq(node, ch[i..], globalMemory.values, runtime) == EvalSeq(node, ch, old(globalMemory.values), runtime)
      {
        assert ch[i..][0] == ch[i] && ch[i..][1..] == ch[i + 1..];
        assert ch[i] in ch;
        var v := Visit(ch[i]);
        if v.Err? {
          return Err(v.error);
        }
        i := i + 1;
      }
      assert ch[i..] == [];
      r := Ok(None);
    }

    /** visit_assign: store the right-hand side's value (possibly NULL)
        under the target's name; the assignment yields NULL. */
    method VisitAssign(node: Node) returns (r: Result<Option<MemoryValue>, EvalError>)
      requires node.Assign?
      modifies globalMemory
      ensures r == Returned(Eval(node, old(globalMemory.values), runtime))
      ensures r.Ok? ==> globalMemory.values == Eval(node, old(globalMemory.values), runtime).value.memory
      decreases node, 1, 0
    {
      var name := ValueField(node.left);
      var v := Visit(node.right);
      if v.Err? {
        return Err(v.error);
      }
      globalMemory.Put(name, v.value);
      r := Ok(None);
    }

    /** visit_variable: the bound value, or a NameError when the memory
        gives NULL. Nothing changes. */
    method VisitVariable(name: string) returns (r: Result<Option<MemoryValue>, EvalError>)
      ensures r == Returned(Eval(Variable(EndOfFileToken, name), globalMemory.values, runtime))
    {
      var val := globalMemory.Get(name);
      if val.Some? {
        r := Ok(val);
      } else {
        r := Err(NameError(name));
      }
    }

    /** visit_double_condition: `and` and `or` with C++ short-circuiting. */
    method VisitDoubleCondition(node: Node) returns (r: Result<Option<MemoryValue>, EvalError>)
      requires node.DoubleCondition?
      modifies globalMemory
      ensures r == Returned(Eval(node, old(globalMemory.values), runtime))
      ensures r.Ok? ==> globalMemory.values == old(globalMemory.values)
      decreases node, 1, 0
    {
      if node.op.TypeOf(And) {
        var x := VisitText(node, node.left);
        if x.Err? {
          return Err(x.error);
        }
        if x.value != "True" {
          return Ok(Some(FalseValue));
        }
        var y := VisitText(node, node.right);
        if y.Err? {
          return Err(y.error);
        }
        r := Ok(Some(BoolValue(y.value == "True")));
      } else if node.op.TypeOf(Or) {
        var x := VisitText(node, node.left);
        if x.Err? {
          return Err(x.error);
        }
        if x.value == "True" {
          return Ok(Some(TrueValue));
        }
        var y := VisitText(node, node.right);
        if y.Err? {
          return Err(y.error);
        }
        r := Ok(Some(BoolValue(y.value == "True")));
      } else {
        r := Err(NoResult);
      }
    }

    /** visit_negation: swaps "True" and "False". */
    method VisitNegation(node: Node) returns (r: Result<Option<MemoryValue>, EvalError>)
      requires node.Negation?
      modifies globalMemory
      ensures r == Returned(Eval(node, old(globalMemory.values), runtime))
      ensures r.Ok? ==> globalMemory.values == old(globalMemory.values)
      decreases node, 1, 0
    {
      var x := VisitText(node, node.statement);
      if x.Err? {
        return Err(x.error);
      }
      if x.value == "True" {
        r := Ok(Some(FalseValue));
      } else if x.value == "False" {
        r := Ok(Some(TrueValue));
      } else {
        r := Err(NoResult);
      }
    }
  }
}
