/** Tokens as produced by the lexer and consumed by the parser and the
    calculator (lexer/Token.cpp, lexer/Token.h). */
module Tokens {

  /** The union of every token kind the lexer, the parser and the calculator
      refer to (the enumeration in lexer/Token.h lists only a subset). */
  datatype TokenKind =
    | Float | Plus | Minus | Div | IntDiv | Mult | Modulo
    | LParen | RParen | LCurly | RCurly | LSquared | RSquared
    | Identifier | VariableDecl | Comma | AssignOp | Semicolon | Colon
    | EndOfFile | String | Boolean | NoneValue | CompareOp
    | Not | Equals | NotEquals | And | Or
    | MoreOrEq | LessOrEq | Less | More
    | IfKw | ElseKw | WhileKw | PrintKw | FunctionKw | ReturnKw | ImportKw | AsKw | BuiltInLib
    | Cast | CastInt | CastString | CastFloat | CastBool
    | Integer

  /** A token: its kind and the text it was built with. */
  datatype Token = Token(kind: TokenKind, text: string) {
    /** Token::type_of: plain equality of kinds. */
    predicate TypeOf(k: TokenKind) {
      kind == k
    }
  }

  const EndOfFileToken := Token(EndOfFile, "")
}
