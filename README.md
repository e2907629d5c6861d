# misty-interpreter in Dafny

A verified model of the core of misty, a small tree-walking interpreter
written in C++. The model covers these parts:

- **Scanner** (`lexer/Lexer.cpp`): turns program text into tokens. It
  prefers the longest operator, reads numbers and words, and looks words
  up in a keyword table.
- **Recursive-descent parser** (`parser/Parser.cpp`): builds the syntax
  tree whose node kinds `parser/AST.cpp` defines.
- **Two static name checkers:**
  - `interpreter/SemanticAnalyzer.cpp` keeps a chain of symbol tables,
    one per if body, while body and function.
  - `interpreter/SymbolTableBuilder.cpp` is the older checker with one
    flat table.
- **Scope tables and environments:**
  - `interpreter/Symbol.cpp` (`SymbolTable`);
  - the chained memory of `interpreter/Memory.cpp`;
  - the flat memory of `interpreter/Memory.h`.
- **Evaluator** (`interpreter/Interpreter.cpp`): values are a text plus
  a type tag. It handles:
  - literals and textual chained comparison;
  - `and`/`or` and `not`;
  - unary operators;
  - assignment and lookup in one global memory;
  - blocks.
- **Early calculator** (`Interpreter.cpp` at the repository root): adds
  and subtracts integer tokens left to right.

Each source file becomes one module. Files that update state step by step
become classes: the lexer, the parser, the two checkers, the symbol table,
both memories, the evaluator and the calculator. Each such class is proved
against a pure specification:

- the lexer's methods against `NextToken` and `ScanNumber`;
- the parser's methods against the grammar functions of module `Grammar`;
- the analyzer against `Check`;
- the table builder against `Build`;
- the evaluator against `Eval`;
- the calculator against `ExprFrom`.

The properties that the source and its design promise are proved as
lemmas about those specifications. Examples:

- scope discipline;
- when a declaration is rejected;
- operator precedence and associativity;
- the shape of comma lists;
- chained comparison;
- short-circuiting;
- assignment followed by a read.

Three further modules are shared:

- `ScopeChain` treats a parent-linked chain of tables as a sequence of
  maps;
- `KeyOrder` gives the iteration order of a `std::map<std::string, _>`;
- `Wrappers` holds `Option` and `Result`.

Errors that the C++ reports by printing a message and calling `exit`
become the error side of a `Result`. So do behaviours C++ leaves
undefined, such as control reaching the end of a value-returning function
or dereferencing NULL. Each error datatype names the cases it distinguishes.

Where the repository's own description of the language disagrees with the
code, the model follows the code:

- equality in a chained comparison compares the operands' texts;
- the ordering operators `<`, `<=`, `>`, `>=` are skipped without
  evaluating anything;
- `and` and `or` short-circuit through C++ `&&` and `||`;
- binary `+` goes through `std::stod` for both operands rather than
  concatenating strings.

## Model

| member | source | states |
|---|---|---|
| Ast.NewValue | parser/AST.cpp:6-9 | a Value node stores its token and takes the token's text as its value; the token is its diagnostic token |
| Ast.NewVariable | parser/AST.cpp:40-43 | a Variable node stores its token and takes the token's text as its value |
| Ast.NewBinaryOperator | parser/AST.cpp:11-16 | keeps both operands; the operator token is the diagnostic token and the value field stays empty |
| Ast.NewUnaryOperator | parser/AST.cpp:18-21 | keeps the operand; the operator token is the diagnostic token |
| Ast.NewAssign | parser/AST.cpp:23-27 | keeps target and right-hand side; the operator token is the diagnostic token |
| Ast.NewDoubleCondition | parser/AST.cpp:34-38 | keeps both sides; the `and`/`or` token is the diagnostic token |
| Ast.NewNegation | parser/AST.cpp:49-52 | keeps the negated statement; the `not` token is the diagnostic token |
| Ast.NewCompound | parser/AST.cpp:88-90 | records the inside-function flag and the children; no diagnostic token |
| Ast.NewCastValue | parser/AST.cpp:102-106 | keeps the castee; the target-type token is the diagnostic token |
| Ast.NewImport | parser/AST.cpp:108-112 | stores the path token's text and the alias; the path token is the diagnostic token |
| Ast.NewObjectDive | parser/AST.cpp:114-118 | keeps parent and child; the colon token is the diagnostic token |
| Ast.NewReturn | parser/AST.cpp:83-86 | keeps the returned expression; the `return` token is the diagnostic token |
| ScopeChain.Nearest | interpreter/Symbol.cpp:12-22 | a binding found comes from some table of the chain that holds the name, and no table nearer the current one holds it |
| ScopeChain.NearestNoneIffUnbound | interpreter/Symbol.cpp:12-22 | the walk up the chain finds nothing exactly when no table binds the name |
| ScopeChain.NearestShadows | interpreter/Symbol.cpp:13-19 | the innermost table that holds the name supplies the binding; outer tables are shadowed |
| ScopeChain.BindInnermost | interpreter/Symbol.cpp:8-15 | after binding a name in the innermost table the walk returns exactly that binding |
| ScopeChain.BindOthersUnchanged | interpreter/Memory.cpp:32-46 | binding one name in the innermost table leaves every other name's lookup unchanged |
| KeyOrder.LeastExists | interpreter/Symbol.cpp:27-32 | every non-empty key set has a first key in `std::string` order |
| KeyOrder.OrderedIsSortedEnumeration | interpreter/Symbol.cpp:27-32 | the map iteration order lists every key exactly once, strictly ascending |
| KeyOrder.OrderedKeys | interpreter/Memory.h:33-35 | the iterator loop produces the keys in map order |
| Symbols.SymbolTable.constructor | interpreter/Symbol.cpp:3-6 | records the level and the enclosing table; the new table is empty and the chain stays acyclic |
| Symbols.SymbolTable.Define | interpreter/Symbol.cpp:8-10 | inserts or overwrites the name in this table only; enclosing tables are unchanged; a lookup of the name then returns the symbol |
| Symbols.SymbolTable.Lookup | interpreter/Symbol.cpp:12-22 | the non-local lookup equals the nearest binding along the chain (NULL iff none); the local lookup consults this table alone |
| Symbols.SymbolTable.Str | interpreter/Symbol.cpp:24-35 | the header `Symbols: \n` followed by each name and a newline, in ascending key order |
| MemoryFlat.Memory.constructor | interpreter/Memory.h:26-28 | a memory starts with no bindings |
| MemoryFlat.Memory.Put | interpreter/Memory.h:43-45 | overwrites the binding of the name; a get then yields the value and every other name's binding is unchanged |
| MemoryFlat.Memory.Get | interpreter/Memory.h:47-52 | the bound value, or NULL when the name is absent; there is no parent |
| MemoryFlat.Memory.Str | interpreter/Memory.h:30-41 | the header followed by `Name: n, Value: text\n` per binding, in key order |
| MemoryFlat.RenderValueLines | interpreter/Memory.h:35-38 | the loop appends one line per key, in the given order |
| MemoryChain.Rendered | interpreter/Memory.cpp:18-24 | a scalar prints its text, an array `array`, a function `function`, anything else nothing |
| MemoryChain.RenderBindingLines | interpreter/Memory.cpp:15-27 | the loop appends one line per key, in the given order |
| MemoryChain.Memory.constructor | interpreter/Memory.cpp:5-8 | records the level and the enclosing block; the block is empty and the chain stays acyclic |
| MemoryChain.Memory.Put | interpreter/Memory.cpp:44-46 | binds or overwrites in this block only; a get then yields the value; other names and enclosing blocks are unchanged |
| MemoryChain.Memory.Get | interpreter/Memory.cpp:32-42 | equals the nearest binding along the chain of blocks, NULL iff no block binds the name |
| MemoryChain.Memory.Str | interpreter/Memory.cpp:10-30 | the header followed by one `Name: n, Value: ...` line per local binding in key order |
| Lexing.RunEnd | lexer/Lexer.cpp:64-67 | the end of the maximal run of a character class: every character before it is in the class and the one at it is not (or is NUL) |
| Lexing.Tokenize | lexer/Lexer.cpp:107-223 | driving the lexer to the end yields a token list that ends with END_OF_FILE and has no earlier END_OF_FILE |
| Lexing.NumberIsMaximal | lexer/Lexer.cpp:61-80 | number consumes the maximal digit run, at most one `.` and a second digit run; the FLOAT token's text is exactly the consumed characters |
| Lexing.WordIsMaximal | lexer/Lexer.cpp:90-104 | handle_identifiers consumes the maximal alphanumeric run; a keyword gets the keyword's kind, any other word IDENTIFIER; the text is the run |
| Lexing.NextTokenConsumesItsText | lexer/Lexer.cpp:107-216 | every token but END_OF_FILE consumes at least one character after the spaces, and its text is what it consumed |
| Lexing.EndOfFileIffOnlySpacesLeft | lexer/Lexer.cpp:109-113 | END_OF_FILE with empty text comes back exactly when only spaces remain |
| Lexing.DispatchConsumesOrRejects | lexer/Lexer.cpp:123-223 | each branch after the spaces consumes at least one character, and the only failure is UnidentifiedToken naming the character under the cursor at its position |
| Lexing.NextTokenAdvances | lexer/Lexer.cpp:107-223 | a token other than END_OF_FILE moves the cursor strictly forward and not past the end; END_OF_FILE comes with empty text |
| Lexing.NextTokenAsWritten | lexer/Lexer.cpp:107-121 | as written, NUL at the cursor gives END_OF_FILE without moving, while spaces followed by NUL give the unidentified-token error at the NUL |
| Lexing.LongestMatch | lexer/Lexer.cpp:128-191 | `==`, `!=` and `//` win over `=`, `!` and `/`; `&&` and `\|\|` need both characters |
| Lexing.ErrorIffUnrecognised | lexer/Lexer.cpp:55-59 | only the space is skipped; the lexer fails exactly on a character no rule starts with, or a lone `&` or `\|`, at that character |
| Lexing.WordLexesAsOneToken | lexer/Lexer.cpp:14-31 | a word followed by a non-alphanumeric character is one token, with its keyword kind when it is in the keyword table |
| Lexing.TrailingSpaceAsWritten | lexer/Lexer.cpp:109-121 | as written, trailing spaces make the lexer meet NUL and fail; the corrected step returns END_OF_FILE |
| Lexing.NotEqualsTextAsWritten | lexer/Lexer.cpp:140-144 | as written, `!=` becomes a NOT_EQUALS token with text `==`; the corrected step keeps `!=` |
| Lexing.AsWrittenDiffersOnlyThere | lexer/Lexer.cpp:107-223 | the as-written and corrected steps differ on exactly those two kinds of input |
| Lexing.Lexer.constructor | lexer/Lexer.cpp:5-12 | the cursor is on the first character (NUL for empty text) and the keyword table is filled |
| Lexing.Lexer.Advance | lexer/Lexer.cpp:38-45 | moves one position on; the current character is the next one, NUL past the end |
| Lexing.Lexer.Peek | lexer/Lexer.cpp:47-53 | the character after the cursor, NUL beyond the end |
| Lexing.Lexer.SkipWhitespace | lexer/Lexer.cpp:55-59 | moves the cursor past the spaces under it and no further |
| Lexing.Lexer.Number | lexer/Lexer.cpp:61-80 | returns the FLOAT token of ScanNumber and leaves the cursor after it |
| Lexing.Lexer.HandleIdentifiers | lexer/Lexer.cpp:90-104 | returns the word's token of ScanWord and leaves the cursor after it |
| Lexing.Lexer.GetNextToken | lexer/Lexer.cpp:107-223 | returns the token (or error) of NextToken and leaves the cursor where NextToken says |
| Calculator.Wrap32 | Interpreter.cpp:32-35 | the result lies in the 32-bit `int` range and equals the exact value whenever that is in range |
| Calculator.WrapAbsorbs | Interpreter.cpp:28-37 | wrapping after every step equals wrapping the exact sum once |
| Calculator.StoI | Interpreter.cpp:13 | std::stoi gives an `int` in range, or fails with invalid-argument or out-of-range on that text |
| Calculator.Digits | Interpreter.cpp:13 | the decimal digits of a natural number: at least one character, every one a digit |
| Calculator.DecimalText | Interpreter.cpp:13 | the decimal text of an `int` starts with `-` exactly when the value is negative, and with a digit otherwise |
| Calculator.DigitsValueOfDigits | Interpreter.cpp:13 | reading the digits of k back as a decimal number gives k |
| Calculator.StoIReadsDecimalText | Interpreter.cpp:13 | std::stoi reads back the decimal text of every `int`, after any leading white space and before any non-digit tail |
| Calculator.StoIReadsNegative | Interpreter.cpp:13 | a minus sign and the digits of k, with k at most 2^31, read back as -k |
| Calculator.StoIReadsNatural | Interpreter.cpp:13 | the digits of k, with k below 2^31, read back as k |
| Calculator.StoIInvalidIffNoDigit | Interpreter.cpp:13 | invalid-argument comes exactly when no digit follows the leading white space and optional sign |
| Calculator.StoIExamples | Interpreter.cpp:13 | leading blanks and a sign are accepted and trailing junk ignored; a sign alone is rejected |
| Calculator.LoopFoldsSteps | Interpreter.cpp:28-37 | the loop adds each `+ n` and subtracts each `- n` strictly left to right and stops at the first token that is neither |
| Calculator.TermsCombineLeftToRight | Interpreter.cpp:24-40 | `n0 ± n1 ± ...` evaluates to n0 plus the signed sum of the rest, as a 32-bit `int` |
| Calculator.ExprStartsWithTerm | Interpreter.cpp:24-27 | expr first requires a term: a non-INTEGER first token is the lexer's error |
| Calculator.ExprFrom | Interpreter.cpp:24-40 | a result is a 32-bit `int`; a first token that is not INTEGER gives the lexer error at it |
| Calculator.Loop | Interpreter.cpp:28-37 | starting from an `int` the loop ends with an `int` |
| Calculator.LoopTurn | Interpreter.cpp:30-36 | one turn of the loop: a failing term ends the loop with its error, otherwise the loop goes on two tokens later from the wrapped sum or difference |
| Calculator.Interpreter.constructor | Interpreter.cpp:6-8 | a fresh token source with nothing fetched |
| Calculator.Interpreter.Fetch | Interpreter.cpp:25 | fetches the next token from the lexer |
| Calculator.Interpreter.Eat | Interpreter.cpp:16-22 | advances exactly when the current token has the expected type, otherwise reports the lexer error at it |
| Calculator.Interpreter.Term | Interpreter.cpp:10-14 | returns TermAt of the current token and advances past it on success |
| Calculator.Interpreter.AddOrSubtractTerm | Interpreter.cpp:30-36 | one turn of the loop: eats `+` or `-` and the next term, and the loop from there goes on with the new result, or fails with the term's error exactly as the loop does |
| Calculator.Interpreter.Expr | Interpreter.cpp:24-40 | returns ExprFrom of the token stream |
| Evaluation.BoolValue | interpreter/Interpreter.cpp:115-123 | a BOOLEAN value whose text is `True` exactly when the condition holds and `False` otherwise |
| Evaluation.ValueOf | interpreter/Interpreter.cpp:91-105 | a literal keeps its text and is tagged FLOAT, BOOLEAN or STRING by token kind |
| Evaluation.Eval | interpreter/Interpreter.cpp:11-46 | a visit that yields a value leaves the memory unchanged |
| Evaluation.Returned | interpreter/Interpreter.cpp:11-46 | the pointer a visit returns: the value on success, the error otherwise |
| Evaluation.CompareFromHolds | interpreter/Interpreter.cpp:108-123 | the comparison loop from operator i on yields whether every later `is`/`isnt` link holds |
| Evaluation.CompareStep | interpreter/Interpreter.cpp:109-121 | one turn of the loop: a failing link gives false, a holding one continues |
| Evaluation.CompareFrom | interpreter/Interpreter.cpp:108-123 | when no later operator is `is` or `isnt` the loop yields true, or a missing-operand error when an operator has no right operand |
| Evaluation.CompareIffChainHolds | interpreter/Interpreter.cpp:107-124 | a comparison yields `True` exactly when each `is` pair has equal texts and each `isnt` pair different ones |
| Evaluation.AndShortCircuits | interpreter/Interpreter.cpp:156-161 | `and` with a left side other than `True` yields `False` without visiting the right side |
| Evaluation.OrShortCircuits | interpreter/Interpreter.cpp:162-167 | `or` with a left side `True` yields `True` without visiting the right side |
| Evaluation.DoubleConditionTruthTable | interpreter/Interpreter.cpp:155-169 | `and` is `True` iff both sides are `True`; `or` iff either is |
| Evaluation.DoubleNegation | interpreter/Interpreter.cpp:171-179 | negating twice gives back a boolean text; any other text falls off the end |
| Evaluation.UnaryPlusIsIdentity | interpreter/Interpreter.cpp:83-89 | a unary operator other than minus returns its operand's result unchanged |
| Evaluation.LiteralKeepsText | interpreter/Interpreter.cpp:91-105 | a literal evaluates to its token's text, tagged by kind, and changes nothing |
| Evaluation.UnboundReadIsNameError | interpreter/Interpreter.cpp:140-149 | reading a name is a name error exactly when it is unbound (or NULL); otherwise it yields the stored value |
| Evaluation.AssignThenRead | interpreter/Interpreter.cpp:133-149 | assignment yields no value, a later read returns the assigned value, and other bindings are unchanged |
| Evaluation.CompoundRunsChildrenInOrder | interpreter/Interpreter.cpp:126-131 | running the children xs ++ ys is running the block of xs and then, in the memory it left, the block of ys; an error in xs stops there; the block yields no value |
| Evaluation.CompoundOfOne | interpreter/Interpreter.cpp:126-131 | a block of one statement fails as that statement fails and otherwise keeps its memory and yields no value |
| Evaluation.EvalSeqStep | interpreter/Interpreter.cpp:127-130 | one turn of the children loop: the first child runs in the current memory and an error stops the loop |
| Evaluation.EvalSeqAppend | interpreter/Interpreter.cpp:127-130 | the loop over xs ++ ys is the loop over xs followed by the loop over ys in the memory xs left |
| Evaluation.EvalSeqParentFree | interpreter/Interpreter.cpp:127-130 | the loop's result depends on the children alone, not on the node that holds them |
| Evaluation.DeclarationIsNoOp | interpreter/Interpreter.cpp:181-183 | a variable declaration does nothing |
| Evaluation.Interpreter.constructor | interpreter/Interpreter.cpp:4-9 | the global memory starts empty |
| Evaluation.Interpreter.Visit | interpreter/Interpreter.cpp:11-46 | returns Eval's result and leaves the global memory as Eval says |
| Evaluation.Interpreter.VisitText | interpreter/Interpreter.cpp:49-50 | `visit(e)->value`: the operand's text, an error on NULL |
| Evaluation.Interpreter.VisitBinaryOp | interpreter/Interpreter.cpp:48-81 | returns Eval's result for a binary operator |
| Evaluation.Interpreter.VisitUnaryOp | interpreter/Interpreter.cpp:83-89 | returns Eval's result for a unary operator |
| Evaluation.Interpreter.VisitCompare | interpreter/Interpreter.cpp:107-124 | the comparison loop returns Eval's result |
| Evaluation.Interpreter.VisitCompound | interpreter/Interpreter.cpp:126-131 | the children loop leaves the memory as Eval says and returns NULL |
| Evaluation.Interpreter.VisitAssign | interpreter/Interpreter.cpp:133-138 | stores the right-hand value under the target's name, as Eval says |
| Evaluation.Interpreter.VisitVariable | interpreter/Interpreter.cpp:140-149 | returns the stored value or the name error |
| Evaluation.Interpreter.VisitDoubleCondition | interpreter/Interpreter.cpp:155-169 | returns Eval's result for `and`/`or` |
| Evaluation.Interpreter.VisitNegation | interpreter/Interpreter.cpp:171-179 | returns Eval's result for `not` |
| SemanticAnalysis.Declare | interpreter/SemanticAnalyzer.cpp:161-178 | on success every declared name is in the current table and only the current table grew |
| SemanticAnalysis.Check | interpreter/SemanticAnalyzer.cpp:3-77 | a successful walk keeps the chain's length and enclosing tables and only adds names to the current one |
| SemanticAnalysis.CheckBoth | interpreter/SemanticAnalyzer.cpp:97-100 | two children in order, with the same scope guarantee |
| SemanticAnalysis.CheckSeq | interpreter/SemanticAnalyzer.cpp:108-112 | the children loop, with the same scope guarantee |
| SemanticAnalysis.Scoped | interpreter/SemanticAnalyzer.cpp:79-86 | a body checked between enter_new_scope and leave_scope leaves the chain exactly as before |
| SemanticAnalysis.CheckFunction | interpreter/SemanticAnalyzer.cpp:207-212 | parameters and block checked in a fresh table leave the chain exactly as before |
| SemanticAnalysis.CompoundOpensNoScope | interpreter/SemanticAnalyzer.cpp:114-122 | a Compound creates the level-1 table when there is none and otherwise declares into the current table |
| SemanticAnalysis.CompoundKeepsEnclosingTables | interpreter/SemanticAnalyzer.cpp:114-122 | inside an open chain a block with any children keeps the chain's length and enclosing tables and only adds names to the current table |
| SemanticAnalysis.RootCompoundCreatesOneTable | interpreter/SemanticAnalyzer.cpp:114-117 | from no table, a program ends with exactly one table |
| SemanticAnalysis.BodiesAreScoped | interpreter/SemanticAnalyzer.cpp:180-186 | after an if or a while the chain is what the condition left; body declarations are gone |
| SemanticAnalysis.RedeclarationIffInCurrentTable | interpreter/SemanticAnalyzer.cpp:161-178 | a declaration fails exactly when the current table holds the name; otherwise it shadows outer ones and resolves to the new symbol |
| SemanticAnalysis.VariableResolvesIffBound | interpreter/SemanticAnalyzer.cpp:141-148 | a reference succeeds iff some table of the chain holds the name; otherwise a name error at its token |
| SemanticAnalysis.Resolve | interpreter/SemanticAnalyzer.cpp:141-148 | a resolved name leaves the chain unchanged and is bound in some table; a failure is the missing-table or the name error |
| SemanticAnalysis.AssignTargetMustResolve | interpreter/SemanticAnalyzer.cpp:124-139 | a plain target must resolve (else a name error before the right side); then the right side is checked |
| SemanticAnalysis.FunctionNameVisibleInBody | interpreter/SemanticAnalyzer.cpp:203-213 | the function's name is defined before its body, so a recursive reference resolves |
| SemanticAnalysis.ParameterlessFunctionChecksBlock | interpreter/SemanticAnalyzer.cpp:203-213 | the name goes in the current table, then the block is checked in a fresh table that is dropped |
| SemanticAnalysis.FunctionDeclarationsStayInside | interpreter/SemanticAnalyzer.cpp:203-213 | after a function only its name has been added to the enclosing table |
| SemanticAnalysis.ImportRedefinesWithoutCheck | interpreter/SemanticAnalyzer.cpp:238-241 | import defines its alias even when the name is already declared |
| SemanticAnalysis.UnknownKindIsRejected | interpreter/SemanticAnalyzer.cpp:70-76 | a node kind outside the dispatch is an error |
| SemanticAnalysis.ParameterlessFunctionAsWritten | interpreter/SemanticAnalyzer.cpp:209 | as written, a function without parameters visits NULL and fails; the corrected walk accepts it |
| SemanticAnalysis.CheckFunctionAsWritten | interpreter/SemanticAnalyzer.cpp:203-213 | as written, a function without parameters fails on the NULL node; a success only adds the name to the current table |
| SemanticAnalysis.EmptyFunctionChecks | interpreter/SemanticAnalyzer.cpp:203-213 | a function without parameters and with an empty block only defines its name |
| SemanticAnalysis.Outcome | interpreter/SemanticAnalyzer.cpp:3-77 | success exactly when the walk succeeds, with the walk's error otherwise |
| SemanticAnalysis.SemanticAnalyzer.constructor | interpreter/SemanticAnalyzer.h:14-16 | no table until the first Compound |
| SemanticAnalysis.SemanticAnalyzer.EnterNewScope | interpreter/SemanticAnalyzer.cpp:79-82 | a fresh table one level deeper whose parent is the old current table |
| SemanticAnalysis.SemanticAnalyzer.LeaveScope | interpreter/SemanticAnalyzer.cpp:84-86 | the current table becomes its parent |
| SemanticAnalysis.SemanticAnalyzer.Visit | interpreter/SemanticAnalyzer.cpp:3-77 | the outcome is Check's and the tables hold what Check computed; the current table is unchanged or the new level-1 table |
| SemanticAnalysis.SemanticAnalyzer.VisitMiddleKinds | interpreter/SemanticAnalyzer.cpp:19-35 | the assignment, variable, empty, `and`/`or`, `not` and declaration branches of the dispatch, with the same guarantee as Visit |
| SemanticAnalysis.SemanticAnalyzer.VisitLaterKinds | interpreter/SemanticAnalyzer.cpp:37-52 | the if, print, array and function branches of the dispatch, with the same guarantee |
| SemanticAnalysis.SemanticAnalyzer.VisitLastKinds | interpreter/SemanticAnalyzer.cpp:55-76 | the return, while, cast, import and object branches, and the unknown-kind error, with the same guarantee |
| SemanticAnalysis.SemanticAnalyzer.VisitObjectDive | interpreter/SemanticAnalyzer.cpp:243-246 | the parent first, then the child as a variable use, as Check |
| SemanticAnalysis.SemanticAnalyzer.VisitBoth | interpreter/SemanticAnalyzer.cpp:97-100 | two children in order, as CheckBoth |
| SemanticAnalysis.SemanticAnalyzer.VisitAll | interpreter/SemanticAnalyzer.cpp:108-112 | the children loop, as CheckSeq |
| SemanticAnalysis.SemanticAnalyzer.VisitCompound | interpreter/SemanticAnalyzer.cpp:114-122 | creates the level-1 table when there is none, then visits the children |
| SemanticAnalysis.SemanticAnalyzer.VisitVariable | interpreter/SemanticAnalyzer.cpp:141-148 | succeeds exactly when the name resolves along the chain |
| SemanticAnalysis.SemanticAnalyzer.VisitAssign | interpreter/SemanticAnalyzer.cpp:124-139 | the target check, then the right-hand side, as Check |
| SemanticAnalysis.SemanticAnalyzer.VisitVarDeclaration | interpreter/SemanticAnalyzer.cpp:161-178 | declares the names one by one in the current table, as Declare |
| SemanticAnalysis.SemanticAnalyzer.VisitScoped | interpreter/SemanticAnalyzer.cpp:183-185 | the body between enter and leave; afterwards the chain and current table are as before |
| SemanticAnalysis.SemanticAnalyzer.VisitGuarded | interpreter/SemanticAnalyzer.cpp:180-186 | condition in the current table, body in its own table |
| SemanticAnalysis.SemanticAnalyzer.VisitFunctionInit | interpreter/SemanticAnalyzer.cpp:203-213 | defines the name, checks parameters and block in a fresh table, restores the current table |
| SemanticAnalysis.SemanticAnalyzer.VisitImport | interpreter/SemanticAnalyzer.cpp:238-241 | defines the alias in the current table |
| TableBuilding.Declare | interpreter/SymbolTableBuilder.cpp:115-131 | on success the table keeps every earlier name |
| TableBuilding.Build | interpreter/SymbolTableBuilder.cpp:3-49 | a successful walk only adds names to the one table |
| TableBuilding.BuildBoth | interpreter/SymbolTableBuilder.cpp:59-62 | two children in order, only adding names |
| TableBuilding.BuildSeq | interpreter/SymbolTableBuilder.cpp:76-80 | the children loop, only adding names |
| TableBuilding.DeclareOkIff | interpreter/SymbolTableBuilder.cpp:115-131 | a declaration succeeds exactly when its names are pairwise distinct and none is in the table |
| TableBuilding.DeclareAddsExactlyItsNames | interpreter/SymbolTableBuilder.cpp:115-131 | a successful declaration adds exactly its names, each bound to its symbol, and keeps every other entry |
| TableBuilding.DuplicateInOneDeclaration | interpreter/SymbolTableBuilder.cpp:115-131 | a name repeated in one declaration is rejected at its second occurrence |
| TableBuilding.RedeclarationInIfBodyRejected | interpreter/SymbolTableBuilder.cpp:115-136 | a name already in the table cannot be declared again in an if body |
| TableBuilding.IfBodyDeclarationVisibleAfter | interpreter/SymbolTableBuilder.cpp:133-136 | a name declared in an if body is still declared after the if |
| TableBuilding.VariableResolvesIffDeclared | interpreter/SymbolTableBuilder.cpp:95-102 | a reference succeeds exactly when the name was declared earlier, else a name error at its token |
| TableBuilding.Resolve | interpreter/SymbolTableBuilder.cpp:95-102 | a reference succeeds exactly when the name is in the table, leaves the table unchanged, and otherwise is the name error at its token |
| TableBuilding.AssignTargetMustBeDeclared | interpreter/SymbolTableBuilder.cpp:82-93 | the target must already be declared; then the right side is visited |
| TableBuilding.UndispatchedKindsSkipped | interpreter/SymbolTableBuilder.cpp:3-49 | node kinds outside the dispatch are skipped, children and all |
| TableBuilding.Outcome | interpreter/SymbolTableBuilder.cpp:3-49 | success exactly when the walk succeeds, with the walk's error otherwise |
| TableBuilding.SymbolTableBuilder.constructor | interpreter/SymbolTableBuilder.h:13-15 | one empty table with nothing enclosing it |
| TableBuilding.SymbolTableBuilder.LookupIsLocal | interpreter/SymbolTableBuilder.cpp:86-88 | a lookup in the builder's table sees exactly that table's names |
| TableBuilding.SymbolTableBuilder.Visit | interpreter/SymbolTableBuilder.cpp:3-49 | the outcome is Build's and the table holds what Build computed |
| TableBuilding.SymbolTableBuilder.VisitLaterKinds | interpreter/SymbolTableBuilder.cpp:28-48 | the second half of the dispatch, as Build |
| TableBuilding.SymbolTableBuilder.VisitBoth | interpreter/SymbolTableBuilder.cpp:59-62 | two children in order, as BuildBoth |
| TableBuilding.SymbolTableBuilder.VisitAll | interpreter/SymbolTableBuilder.cpp:70-80 | the children loop, as BuildSeq |
| TableBuilding.SymbolTableBuilder.VisitVariable | interpreter/SymbolTableBuilder.cpp:95-102 | succeeds exactly when the name is in the table |
| TableBuilding.SymbolTableBuilder.VisitAssign | interpreter/SymbolTableBuilder.cpp:82-93 | target check then right-hand side, as Build |
| TableBuilding.SymbolTableBuilder.VisitVarDeclaration | interpreter/SymbolTableBuilder.cpp:115-131 | defines the names in order, as Declare |
| Grammar.At | parser/Parser.cpp:513-519 | past the end of the token list the current token is END_OF_FILE |
| Grammar.Eat | parser/Parser.cpp:513-519 | advances exactly when the current token has the expected kind; otherwise a syntax error at that token |
| Grammar.VariableName | parser/Parser.cpp:62-67 | succeeds exactly on an identifier and gives the Variable node of that token |
| Grammar.StandardDeclaration | parser/Parser.cpp:69-82 | at least one name, the first being the current token, and no initialisers |
| Grammar.NameLoop | parser/Parser.cpp:74-79 | keeps the names read so far and stops at a token that is not a comma |
| Grammar.Declaration | parser/Parser.cpp:84-112 | a declaration with at least one name whose i-th initialiser assigns the i-th name |
| Grammar.InitializedDeclaration | parser/Parser.cpp:87-110 | from `=` on: the names stay, and the i-th initialiser assigns the i-th name |
| Grammar.Initializers | parser/Parser.cpp:96-109 | keeps the names, extends the assignments, and preserves the i-th-to-i-th pairing |
| Grammar.InitializersAsWritten | parser/Parser.cpp:96-109 | the same loop with the guard as written |
| Grammar.IdentifierStatement | parser/Parser.cpp:132-152 | an assignment, a call or an object dive; an assignment's operator is the token after the name |
| Grammar.IfStatement | parser/Parser.cpp:154-162 | an IfCondition with no else branches yet, its blocks flagged like the enclosing code |
| Grammar.ElseStatement | parser/Parser.cpp:164-174 | an IfCondition whose blocks are flagged like the enclosing code |
| Grammar.ElseLoop | parser/Parser.cpp:279-288 | keeps the earlier branches and stops at a token that is not `else` |
| Grammar.WhileStatement | parser/Parser.cpp:176-184 | a WhileLoop whose blocks are flagged like the enclosing code |
| Grammar.PrintStatement | parser/Parser.cpp:186-193 | a Print node |
| Grammar.Parameters | parser/Parser.cpp:204-207 | NULL exactly when no identifier follows the parenthesis |
| Grammar.ParameterList | parser/Parser.cpp:199-207 | consumes `(`, the optional declaration and `)`; the parameters are NULL exactly when no identifier follows `(` |
| Grammar.FunctionHead | parser/Parser.cpp:196-207 | consumes the head of a definition and yields the identifier after `func` as the function's name |
| Grammar.FunctionInitStatement | parser/Parser.cpp:195-220 | a FunctionInit named by the identifier; its block is a Compound flagged inside-function, and so is every block nested in it |
| Grammar.ReturnStatement | parser/Parser.cpp:238-244 | a Return node carrying the `return` token |
| Grammar.ImportStatement | parser/Parser.cpp:246-263 | the path is a string or a library name; the node stores the path and the alias |
| Grammar.Statement | parser/Parser.cpp:265-315 | a token that starts no statement gives an empty statement without consuming; any other statement consumes and keeps the flags |
| Grammar.KeywordStatement | parser/Parser.cpp:268-308 | a statement that starts with one of its keywords, or a name, consumes at least one token and keeps the inside-function flags |
| Grammar.IfWithElses | parser/Parser.cpp:279-288 | an if with its else branches, all flagged, consuming at least one token |
| Grammar.StatementList | parser/Parser.cpp:49-60 | at least one statement, and it stops at a token that is not `;` |
| Grammar.StatementLoop | parser/Parser.cpp:53-57 | keeps the earlier statements and stops at a token that is not `;` |
| Grammar.CompoundStatement | parser/Parser.cpp:37-47 | a Compound with the given inside-function flag and at least one child |
| Grammar.Parse | parser/Parser.cpp:521-530 | a flagged Compound with at least one child, accepted exactly when END_OF_FILE follows the statement list |
| Grammar.Collection | parser/Parser.cpp:19-35 | the ending token first gives no items and consumes it; otherwise at least one item |
| GrammarFacts.CollectionConsumesEnding | parser/Parser.cpp:19-35 | a collection that parses ends just after its ending token |
| Grammar.CollectionLoop | parser/Parser.cpp:25-32 | keeps the items so far and ends just after the ending token |
| Grammar.ArrayLiteral | parser/Parser.cpp:334-339 | an ArrayInit node |
| Grammar.Subscript | parser/Parser.cpp:318-320 | one bracketed index consumes tokens |
| Grammar.ArrayAccessChain | parser/Parser.cpp:317-332 | an ArrayAccess, stopping at a token that is not `[` |
| Grammar.AccessLoop | parser/Parser.cpp:324-329 | stops at a token that is not `[`; an access stays an access |
| Grammar.CallChain | parser/Parser.cpp:222-236 | a FunctionCall, stopping at a token that is not `(` |
| Grammar.CallLoop | parser/Parser.cpp:228-233 | stops at a token that is not `(`; a call stays a call |
| Grammar.DiveChain | parser/Parser.cpp:118-130 | an ObjectDive, stopping at a token that is not `:` |
| Grammar.Factor | parser/Parser.cpp:341-416 | a factor always consumes at least one token |
| Grammar.CastFactor | parser/Parser.cpp:418-439 | consumes at least one token |
| Grammar.Term | parser/Parser.cpp:441-455 | stops at a token that is not `* / // %` |
| Grammar.TermLoop | parser/Parser.cpp:445-452 | stops at a token that is not `* / // %` |
| Grammar.SubAdd | parser/Parser.cpp:457-467 | stops at a token that is not `+ -` |
| Grammar.SubAddLoop | parser/Parser.cpp:460-464 | stops at a token that is not `+ -` |
| Grammar.EqNotEq | parser/Parser.cpp:469-498 | either the plain sum or a Compare of two comparables and one operator; stops at a non-comparison token |
| Grammar.CompareLoop | parser/Parser.cpp:479-495 | keeps the surplus of comparables over operators; reads nothing when no comparison operator follows, and exactly one operator otherwise (the rest is taken by the nested `expr`) |
| Grammar.Expr | parser/Parser.cpp:500-511 | stops at a token that is neither a connective nor a comparison |
| Grammar.ExprLoop | parser/Parser.cpp:503-508 | stops at a token that is not `and`/`or` |
| GrammarFacts.CollectionLoopItems | parser/Parser.cpp:25-32 | the comma loop accepts exactly a comma list of expressions that ends with the ending token |
| GrammarFacts.CollectionItems | parser/Parser.cpp:19-35 | collection gives no items iff the ending token comes first; otherwise exactly one expression per comma-separated item |
| GrammarFacts.StatementListSeparated | parser/Parser.cpp:49-60 | statement_list succeeds with these statements exactly when they are the statements between some run of semicolon separators |
| GrammarFacts.SeparatorsAreSemicolons | parser/Parser.cpp:49-60 | there is one more statement than separators; the separators are semicolons, strictly increasing, inside the consumed span, and no semicolon follows it |
| GrammarFacts.SeparatorsOrdered | parser/Parser.cpp:53-57 | the separators of a statement list are increasing semicolon positions within the consumed span |
| GrammarFacts.LoopFindsSeparators | parser/Parser.cpp:53-57 | statements the loop adds each stand behind a semicolon it found |
| GrammarFacts.SeparatorsMakeLoop | parser/Parser.cpp:53-57 | statements behind semicolons are exactly what the loop adds |
| GrammarFacts.SemicolonRunTail | parser/Parser.cpp:53-57 | a run of semicolons to the end has an empty statement behind each |
| GrammarFacts.SemicolonLoop | parser/Parser.cpp:53-57 | each further `;` adds one empty statement |
| GrammarFacts.SemicolonsList | parser/Parser.cpp:49-60 | n semicolons make a statement list of n + 1 empty statements that consumes all n |
| GrammarFacts.EmptySegmentsAreNoOperators | parser/Parser.cpp:49-60 | n semicolons parse to n + 1 empty statements: one statement per segment |
| GrammarFacts.SurplusInitializerRejected | parser/Parser.cpp:99-103 | a comma after as many initialisers as names is a syntax error |
| GrammarFacts.SurplusInitializerAsWritten | parser/Parser.cpp:99-103 | as written, the same input reaches `at(i)` past the end and throws |
| GrammarFacts.InitializersAgreeWithinNames | parser/Parser.cpp:96-109 | without surplus initialisers the as-written and corrected loops agree |
| GrammarFacts.ProductBindsTighterOnRight | parser/Parser.cpp:441-467 | `a + b * c` parses as `a + (b * c)` |
| GrammarFacts.ProductBindsTighterOnLeft | parser/Parser.cpp:441-467 | `a * b + c` parses as `(a * b) + c` |
| GrammarFacts.SumsAssociateLeft | parser/Parser.cpp:457-467 | `a - b - c` parses as `(a - b) - c` |
| GrammarFacts.ProductsAssociateLeft | parser/Parser.cpp:441-455 | `a / b % c` parses as `(a / b) % c` |
| GrammarFacts.ConnectivesNestRight | parser/Parser.cpp:500-511 | `a and b or c` parses as `a and (b or c)` |
| GrammarFacts.ComparisonsNestRight | parser/Parser.cpp:479-495 | `a is b isnt c` is a Compare of `a` and the Compare of `b` and `c`, each with two comparables and one operator |
| GrammarFacts.CompareOnce | parser/Parser.cpp:479-495 | one comparison operator followed by an operand that no comparison follows gives two comparables and that operator |
| GrammarFacts.ExprOfSum | parser/Parser.cpp:479-511 | a sum followed by neither a comparison nor a connective is the whole expression |
| GrammarFacts.ExprPairOfSingles | parser/Parser.cpp:500-511 | two operands joined by one connective, with no connective after, form one DoubleCondition |
| GrammarFacts.IndexingNestsLeft | parser/Parser.cpp:317-332 | `x[i][j]` is the access of `j` in the access of `i` in `x` |
| GrammarFacts.CallsNestLeft | parser/Parser.cpp:222-236 | `f(x)(y)` calls the result of `f(x)` with `y` |
| GrammarFacts.DivesNestLeft | parser/Parser.cpp:118-130 | `o:a:b` dives into `b` of the dive into `a` of `o` |
| Parsing.Parser.constructor | parser/Parser.cpp:4-9 | the parser starts at the first token, outside any function |
| Parsing.Parser.Advance | parser/Parser.cpp:515-516 | fetches the next token |
| Parsing.Parser.Eat | parser/Parser.cpp:513-519 | agrees with Grammar.Eat: advances exactly on the expected kind |
| Parsing.Parser.VariableName | parser/Parser.cpp:62-67 | agrees with Grammar.VariableName |
| Parsing.Parser.StandardDeclaration | parser/Parser.cpp:69-82 | agrees with Grammar.StandardDeclaration |
| Parsing.Parser.Declaration | parser/Parser.cpp:84-112 | agrees with Grammar.Declaration |
| Parsing.Parser.InitializedDeclaration | parser/Parser.cpp:87-110 | agrees with Grammar.InitializedDeclaration |
| Parsing.Parser.IdentifierStatement | parser/Parser.cpp:132-152 | agrees with Grammar.IdentifierStatement |
| Parsing.Parser.IfStatement | parser/Parser.cpp:154-162 | agrees with Grammar.IfStatement |
| Parsing.Parser.ElseStatement | parser/Parser.cpp:164-174 | agrees with Grammar.ElseStatement |
| Parsing.Parser.WhileStatement | parser/Parser.cpp:176-184 | agrees with Grammar.WhileStatement |
| Parsing.Parser.PrintStatement | parser/Parser.cpp:186-193 | agrees with Grammar.PrintStatement |
| Parsing.Parser.ParameterList | parser/Parser.cpp:199-207 | agrees with Grammar.ParameterList and leaves the inside-function flag alone |
| Parsing.Parser.FunctionHead | parser/Parser.cpp:196-207 | agrees with Grammar.FunctionHead and leaves the inside-function flag alone |
| Parsing.Parser.FunctionInitStatement | parser/Parser.cpp:195-220 | agrees with Grammar.FunctionInitStatement and restores the inside-function flag |
| Parsing.Parser.ReturnStatement | parser/Parser.cpp:238-244 | agrees with Grammar.ReturnStatement |
| Parsing.Parser.ImportStatement | parser/Parser.cpp:246-263 | agrees with Grammar.ImportStatement |
| Parsing.Parser.IfWithElses | parser/Parser.cpp:279-288 | an if followed by its else branches; agrees with Grammar.IfWithElses |
| Parsing.Parser.Statement | parser/Parser.cpp:265-315 | agrees with Grammar.Statement |
| Parsing.Parser.KeywordStatement | parser/Parser.cpp:268-308 | agrees with Grammar.KeywordStatement |
| Parsing.Parser.StatementList | parser/Parser.cpp:49-60 | agrees with Grammar.StatementList |
| Parsing.Parser.CompoundStatement | parser/Parser.cpp:37-47 | agrees with Grammar.CompoundStatement |
| Parsing.Parser.Parse | parser/Parser.cpp:521-530 | agrees with Grammar.Parse |
| Parsing.Parser.Collection | parser/Parser.cpp:19-35 | agrees with Grammar.Collection |
| Parsing.Parser.ArrayLiteral | parser/Parser.cpp:334-339 | agrees with Grammar.ArrayLiteral |
| Parsing.Parser.ArrayAccessChain | parser/Parser.cpp:317-332 | agrees with Grammar.ArrayAccessChain |
| Parsing.Parser.AccessLoop | parser/Parser.cpp:324-329 | agrees with Grammar.AccessLoop |
| Parsing.Parser.CallChain | parser/Parser.cpp:222-236 | agrees with Grammar.CallChain |
| Parsing.Parser.CallLoop | parser/Parser.cpp:228-233 | agrees with Grammar.CallLoop |
| Parsing.Parser.DiveChain | parser/Parser.cpp:118-130 | agrees with Grammar.DiveChain |
| Parsing.Parser.Factor | parser/Parser.cpp:341-416 | agrees with Grammar.Factor |
| Parsing.Parser.CastFactor | parser/Parser.cpp:418-439 | agrees with Grammar.CastFactor |
| Parsing.Parser.Term | parser/Parser.cpp:441-455 | agrees with Grammar.Term |
| Parsing.Parser.SubAdd | parser/Parser.cpp:457-467 | agrees with Grammar.SubAdd |
| Parsing.Parser.EqNotEq | parser/Parser.cpp:469-498 | agrees with Grammar.EqNotEq |
| Parsing.Parser.Expr | parser/Parser.cpp:500-511 | agrees with Grammar.Expr |

## Left out

- Floating-point arithmetic: `visit_binary_op` and unary minus (interpreter/Interpreter.cpp:48-89) go through `std::stod`, `std::to_string` and `fmod`. Their results are parameters of the model (`Evaluation.Runtime`), as is the tag an uninitialised `Type` variable holds.
- `Lexer::string` (lexer/Lexer.cpp:82-88) is an unfinished stub that never returns. `Array::str` (interpreter/Memory.cpp:48) has an empty body. Neither is modelled.
- Printing and `exit`: every error report ends the walk with an error value instead of printing and ending the process.
- Token positions: `line`, `column` and `file` of a token are not modelled. A token has a kind and a text only.
- `Interpreter::evaluate` (interpreter/Interpreter.cpp:185-189): the pipeline from text through parse and check to evaluation is not one member. Each stage is modelled on its own.
- Parsing.Parser: reads a token sequence produced up front (`Lexing.Tokenize`) rather than pulling tokens from the lexer one at a time. A lexer error behind a syntax error is therefore not distinguished from it.
- Calculator: its lexer is an earlier one that is not part of this model. It is given as the sequence of tokens that lexer returns. Signed overflow (undefined in C++) is modelled as 32-bit wrap-around.
- Function, array, cast, import and object-dive evaluation, and import path resolution: the evaluator's dispatch has none of these.
- main.cpp, file reading, and the declaration-only headers. Token kinds are the union of the kinds the lexer and parser use.
- Pointer identity and ownership: values are copied, so aliasing between stored `MemoryValue` pointers is not captured.
- Lexing.Lexer.Advance: requires non-empty text. On empty text `length() - 1` wraps around and the character read is out of range.
- Calculator.Interpreter.Eat: requires a token to have been fetched. `current_token` is unset before the first fetch.
- Calculator.Interpreter.Term: requires a token to have been fetched, for the same reason.
- Lexing.Lexer.Peek: requires non-empty text, for the same reason as Advance.
- MemoryFlat.Memory.Str: requires every stored value to be non-NULL. The C++ reads `it->second->value` for each binding, which is undefined for NULL.
- MemoryChain.Memory.Put: the chained memory never stores NULL. Its callers are not part of this model.
- Symbols.SymbolTable.Lookup: takes the `local_only` flag that the analyzer passes. The one-argument lookup of interpreter/Symbol.cpp:12-22 is the `false` case.
- TableBuilding.SymbolTableBuilder.constructor: its table has level 0 and no parent. The header's `new SymbolTable()` names a constructor that interpreter/Symbol.cpp does not define.
- Evaluation.Eval: a comparison with fewer comparables than its operators need reads past the end of the list (undefined in C++). This becomes the `MissingOperand` error.
- Grammar.ElseStatement: an `else` followed by neither `if` nor `{` reaches the end of a value-returning function (parser/Parser.cpp:164-174), which is undefined in C++. It is modelled as the error `FallsOffEnd` at that token; Parsing.Parser.ElseStatement does the same.
- Lexing.Lexer.GetNextToken, Grammar.Initializers, Grammar.Declaration, Grammar.InitializedDeclaration, Parsing.Parser.Declaration, Parsing.Parser.InitializedDeclaration, SemanticAnalysis.Check, SemanticAnalysis.CheckFunction, SemanticAnalysis.SemanticAnalyzer.VisitFunctionInit: these follow the corrected behaviour listed under Findings. The as-written behaviour is modelled beside each.

## Findings

| source | as written | input that shows it | evidently intended | confidence | as-written member | corrected member |
|---|---|---|---|---|---|---|
| lexer/Lexer.cpp:109-121 | the end-of-input test runs before `skip_whitespace`, so after trailing spaces the cursor is on NUL, no branch matches, and the lexer reports an unidentified token | `1 ` (a trailing space) | END_OF_FILE after trailing spaces | high, not executed | Lexing.TrailingSpaceAsWritten | Lexing.EndOfFileIffOnlySpacesLeft |
| lexer/Lexer.cpp:140-144 | `!=` yields a NOT_EQUALS token whose text is `==` | `!=` | the token's text is the characters consumed, `!=` | high, not executed | Lexing.NotEqualsTextAsWritten | Lexing.NextTokenConsumesItsText |
| parser/Parser.cpp:99-103 | the guard `i > size` lets `i == size` through, and `variables.at(i)` then throws `std::out_of_range` | `have a = 1, 2` | a syntax error when there are more initialisers than names | high, not executed | GrammarFacts.SurplusInitializerAsWritten | GrammarFacts.SurplusInitializerRejected |
| interpreter/SemanticAnalyzer.cpp:209 | `visit(params)` is called when the parser left `params` NULL; the fallback branch of `visit` then dereferences the NULL node | `func f() { }` | a function without parameters checks only its block | medium, not executed | SemanticAnalysis.ParameterlessFunctionAsWritten | SemanticAnalysis.FunctionNameVisibleInBody |
