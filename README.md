# Lox in Rust, modelled in Dafny

This project models the two interpreters of the Lox language in the Rust
repository lox-in-rust, and proves properties of the model.

**Tree-walking pipeline.**
- `scanner.dfy` is the lexer of `src/scanner.rs`. It turns a string into tokens, using the keyword table and the character classes.
- `grammar.dfy` and `stmtgrammar.dfy` state the recursive-descent parser of `src/parser.rs` as functions over the token list.
  Each function returns its result, the position of the first token it did not consume, and the next fresh node id.
  `treeparser.dfy` runs the same parser in place, as a class over the token queue, and each method is proved to compute its function.
- `resolver.dfy` is the scope-depth resolver of `src/resolver.rs`. It works on a scope stack, a depth table and an error log.
- `stmt.dfy` holds the environments of `src/stmt.rs`, as a sequence of scopes linked by index.
- `callable.dfy` holds functions, classes and instances (`src/callable.rs`).
- `token.dfy` holds the runtime values (`src/token.rs`). `expr.dfy` holds the syntax tree.
- `interpreter.dfy` holds operator semantics and evaluation (`src/interpreter.rs`).
  Evaluation and execution are functions of a fuel bound. Loops the source runs in place are methods proved to compute those functions.

**Bytecode pipeline.**
- `lexer.dfy` is the character scanner of `src/compile.rs`, as functions and as a class updating its position and line.
- `compile_scope.dfy` holds the compile-time bookkeeping: precedences, locals, and de-duplicated upvalue lists threaded through the enclosing functions.
- `compiler.dfy` is the single-pass Pratt compiler of `src/compile.rs`. It is a class whose methods emit bytes into a chunk, patch jumps, and maintain scopes.
- `chunk.dfy` holds the code, line and constant buffers (`src/chunk.rs`), the little-endian jump operands, and disassembly stepping.
- `object.dfy` holds the bytecode values (`src/object.rs`).
- `vm.dfy` is the stack machine of `src/vm.rs`. It has an explicit state and a pure `Step` function for one fetch and dispatch.
  The run loop is a method proved to iterate `Step`. Shared upvalue cells are indices into a cell sequence.
  `vm_properties.dfy` proves the opcode semantics and an invariant: every captured stack slot points at an existing cell, and no two slots share one.

The repository is mid-refactor, and the model follows the code that uses each piece rather than the piece itself:
- `src/chunk.rs` declares `Value = f64`, and its `add_constant` returns nothing. It has no `read_jump`, `read_chunk`, `read_constant`, `read_line` or `modify_chunk`, and no opcode constants besides the first two.
  The model follows what `src/compile.rs` and `src/vm.rs` call. `Chunk` is generic over its value type, and `AddConstant` returns the new index.
  Opcodes 0 (return) and 1 (constant) are as in `src/chunk.rs`. The others are distinct numbers chosen here. `USIZE` is 8, and jump operands are little-endian.
- `src/object.rs` has no `Closure` or `Upvalue`. They are added in the shape `src/vm.rs` uses.
- `ObjFunction` has an `upvalue` field, the number of cells the function captures, which `Function` at src/object.rs:67-71 does not declare. src/compile.rs:413 and :975 set it, and the `OP_CLOSURE` loop at src/vm.rs:424 reads it.
- `src/interpreter.rs` names `TokenType::OR` and `TokenType::MINUS`. They are read as `Or` and `Minus`.

## Model

| member | source | states |
|---|---|---|
| Object.AsString | src/object.rs:19-25 | yields a string exactly when the value is a string, and that string is its contents |
| Object.AsNumber | src/object.rs:27-33 | yields a number exactly when the value is a number, and that number is its contents |
| Object.EqualSound | src/object.rs:50-57 | bytecode values compared equal are identical, and the comparison is symmetric |
| Object.EqualReflexiveOnly | src/object.rs:50-57 | a value equals itself only when it is a string or a boolean (numbers, nil and objects never compare equal) |
| Object.NewInstance | src/object.rs:84-91 | a new instance belongs to the given class and has no fields |
| Object.NewClosure | src/vm.rs:416-449 | a closure made for a function wraps that function and starts with no captured cells |
| Token.AsString | src/token.rs:84-90 | yields a string exactly when the literal is a string, and that string is its contents |
| Token.AsNumber | src/token.rs:92-98 | yields a number exactly when the literal is a number, and that number is its contents |
| Token.AsBool | src/token.rs:100-106 | yields a boolean exactly when the literal is a boolean, and that boolean is its contents |
| Token.AsClass | src/token.rs:108-113 | yields a class exactly when the value is a class, and it is that class |
| Token.AsInstance | src/token.rs:115-121 | yields an instance exactly when the value is an instance, and it is that instance |
| Token.EqualSound | src/token.rs:138-146 | tree-walker values compared equal are identical |
| Token.EqualReflexiveOnly | src/token.rs:138-146 | a value equals itself only when it is a string or a boolean |
| Token.EqualSymmetric | src/token.rs:138-146 | the comparison is symmetric |
| Token.Display | src/token.rs:124-136 | nil shows as Nil, booleans as true or false, strings as their text, numbers as their formatted text, functions and classes by name, instances as the empty text |
| Token.DisplayAgreesWithAccessors | src/token.rs:84-136 | the displayed text of a string or boolean is the text or truth its accessor yields, a number shows as its formatted text, and among booleans, instances and nil only nil shows as Nil |
| Stmts.NewEnvironment | src/stmt.rs:53-58 | the global environment is empty and has no enclosing scope |
| Stmts.From | src/stmt.rs:60-65 | a child environment is empty and encloses the given parent |
| Stmts.Define | src/stmt.rs:67-69 | binds the key in the one scope, returns the binding it replaced, and leaves every other scope and the scope's parent untouched |
| Stmts.Ancestor | src/stmt.rs:75-105 | walking outwards depth steps lands on an enclosing scope, never on a newer one |
| Stmts.Assign | src/stmt.rs:75-83 | assigning keeps the number of scopes and their well-formed nesting |
| Stmts.IsDefinedIsLocal | src/stmt.rs:71-73 | a key is defined in a scope exactly when a depth-0 lookup finds it there; an empty scope defines nothing |
| Stmts.GetAtAncestor | src/stmt.rs:85-105 | a lookup at depth d reads the key in the scope d steps out, and fails when that scope does not exist |
| Stmts.AssignAtAncestor | src/stmt.rs:75-83 | an assignment at depth d is a define in the scope d steps out, and changes nothing when that scope does not exist |
| Stmts.AncestorIgnoresOthers | src/stmt.rs:85-105 | the scope reached depends only on the nesting links, not on the bindings |
| Stmts.AssignThenGet | src/stmt.rs:75-105 | after assigning v at a depth that exists, reading at that depth gives v |
| Stmts.FromSeesParent | src/stmt.rs:60-65 | a fresh child scope defines nothing itself, a lookup one step further out reads the parent, and the parent is unchanged |
| Stmts.GetPrefix | src/stmt.rs:85-105 | allocating further scopes does not change any lookup that starts from an existing scope |
| Callable.FunctionArity | src/callable.rs:50-52 | a function's arity is its number of parameters |
| Callable.ClassArity | src/callable.rs:125-127 | a class's arity is zero |
| Callable.FindMethod | src/callable.rs:110-112 | finds a method exactly when the class itself declares it, and returns that declaration |
| Callable.Superclass | src/callable.rs:114-116 | returns the class's superclass as declared |
| Callable.LookupMethod | src/callable.rs:110-116 | a method declared on the class wins; a failed lookup means no class in the superclass chain declares it |
| Callable.LookupMethodFound | src/callable.rs:110-116 | a successful lookup returns the declaration of some class in the superclass chain |
| Callable.FindInChain | src/callable.rs:110-116 | the loop over the superclass chain returns what the recursive lookup returns |
| Callable.NewInstance | src/callable.rs:137-142 | a new instance belongs to the class and has no fields |
| Callable.ClassCall | src/callable.rs:119-124 | calling a class appends one fresh instance of it to the heap, returns that instance and changes nothing else |
| Callable.InstanceSet | src/callable.rs:144-147 | setting a field keeps the class, updates exactly that field and reports the value it replaced, if any |
| Callable.BindAsWritten | src/callable.rs:40-46 | as written: binding defines this in the method's own closure scope, shared by every binding of that method |
| Callable.Bind | src/callable.rs:40-46 | binding copies the method's closure scope with this added, keeps that scope's parent as the copy's enclosing scope, and closes a copy of the method over the new scope; existing scopes, classes and instances are unchanged |
| Callable.BindAsWrittenSharesThis | src/callable.rs:40-46 | as written, binding the same method to a second instance changes what this means in the first bound method |
| Callable.BindKeepsThis | src/callable.rs:40-46 | with a fresh scope per binding, each bound method keeps its own this after later bindings |
| Callable.BindSeesClosure | src/callable.rs:40-46 | in a bound method's scope, this at depth 0 is the instance, and every other lookup gives what the method's own closure gives at the same depth |
| Interpreter.Divide | src/interpreter.rs:606-613 | division fails exactly on a zero denominator, and otherwise the quotient times the denominator is the numerator |
| Interpreter.IsEqual | src/interpreter.rs:615-642 | equality is defined exactly on two numbers, two booleans or two strings, and then it is structural equality |
| Interpreter.BinaryOp | src/interpreter.rs:488-604 | arithmetic and comparison need two numbers (and a non-zero divisor), giving a number or a boolean; + also concatenates two strings; == and != follow IsEqual; any other operator fails |
| Interpreter.UnaryOp | src/interpreter.rs:444-487 | - negates exactly a number; ! is defined on booleans and nil, where nil counts as false; other operators fail |
| Interpreter.Eval | src/interpreter.rs:232-442 | a finished evaluation only grows the heap and keeps the scopes well nested |
| Interpreter.EvalArgs | src/interpreter.rs:243-270 | evaluating the arguments in order yields one value per argument after those already evaluated |
| Interpreter.Property | src/interpreter.rs:271-300 | a field present on the instance is returned as is, without touching the heap |
| Interpreter.BindMethod | src/interpreter.rs:271-300 | binding succeeds exactly when a method was found and its closure scope exists, and yields a new function: that method closed over a new scope; the heap only grows |
| Interpreter.SuperMethod | src/interpreter.rs:349-397 | a finished super access only grows the heap; what it yields is stated by Interpreter.SuperFromChain and Interpreter.SuperInBoundMethod |
| Interpreter.CallValue | src/interpreter.rs:243-270 | a finished call only grows the heap |
| Interpreter.BindParams | src/callable.rs:53-87 | binding parameters touches only the call's scope, and fails exactly when some parameter token carries no name |
| Interpreter.CallFunction | src/callable.rs:53-87 | a call with the wrong number of arguments fails; a finished call only grows the heap |
| Interpreter.ExecBody | src/callable.rs:53-87 | a finished function body only grows the heap |
| Interpreter.Condition | src/interpreter.rs:138-161 | a condition succeeds exactly when the expression evaluates to a boolean, giving that boolean; a non-boolean is a runtime error |
| Interpreter.Effect | src/interpreter.rs:116-119 | an expression statement fails only with a runtime error and only grows the heap |
| Interpreter.Exec | src/interpreter.rs:38-230 | a finished statement only grows the heap and keeps the scopes well nested |
| Interpreter.ExecWhile | src/interpreter.rs:197-228 | a finished loop only grows the heap |
| Interpreter.Iterate | src/interpreter.rs:197-228 | one loop iteration only grows the heap |
| Interpreter.Interpret | src/interpreter.rs:24-36 | running a program only grows the heap |
| Interpreter.ClassMethods | src/interpreter.rs:52-115 | collecting methods keeps what was already collected and closes every new method over the class scope |
| Interpreter.ExecClass | src/interpreter.rs:52-115 | a finished class declaration only grows the heap |
| Interpreter.DefineClass | src/interpreter.rs:52-115 | declaring a class adds one class with the given superclass, binds its name to it in the current scope, and creates one new scope enclosed by the class scope, over which every method is closed |
| Interpreter.MethodsSeeSuper | src/interpreter.rs:52-115 | in a class declared with a superclass, the superclass is an earlier class, and every method's closure finds it as super one scope out |
| Interpreter.BoundBodyScopes | src/callable.rs:40-87 | in the body of a bound method, this is found at depth 1, and a lookup at any depth d of 2 or more reads the method's closure at depth d - 1: the params, this, super layout the resolver counts |
| Interpreter.SuperInBoundMethod | src/interpreter.rs:349-397 | in a bound method whose closure finds the superclass as super one scope out, super.m at the resolver's depth 2 is the superclass's method m bound to the same this |
| Interpreter.SuperFromChain | src/interpreter.rs:349-397 | an unresolved super is a runtime error; a finished super access finds a class as super at the resolved depth and yields a method of that name from the class's chain, closed over a new scope |
| Interpreter.ShortCircuit | src/interpreter.rs:305-333 | or stops at a true left operand and and at a false one, whatever the right operand; a non-boolean left operand is a runtime error; otherwise the result is the right operand's |
| Interpreter.ConditionMustBeBool | src/interpreter.rs:138-161 | if and while whose condition is not a boolean fail with a runtime error |
| Interpreter.WhileUnrolls | src/interpreter.rs:197-228 | a false condition ends the loop; a true one runs the body and then the loop again; a failing body ends the loop with that failure |
| Interpreter.RedeclarationFails | src/interpreter.rs:176-196 | declaring a name already defined in the current scope is a runtime error |
| Interpreter.VarDefinesNil | src/interpreter.rs:176-196 | var without an initializer binds the name in the current scope (to nil here) and leaves every other scope alone |
| Interpreter.BlockKeepsDeclarations | src/interpreter.rs:44-51 | a declaration inside a block does not reach the enclosing scope |
| Interpreter.AssignGivesPrevious | src/interpreter.rs:427-441 | assignment targets the scope the resolver's depth names, fails when the name is not bound there, returns the previous value and leaves the new value readable |
| Interpreter.PropertyFromChain | src/interpreter.rs:271-300 | a property that is not a field is a method from the class chain, bound to the instance through Callable.Bind; with no such method, access is a runtime error |
| Interpreter.ClassCallIgnoresArguments | src/callable.rs:119-124 | calling a class ignores its arguments and yields a fresh instance |
| Interpreter.ParamsBound | src/callable.rs:53-87 | with named, distinct parameters, binding succeeds and each parameter is bound to its argument |
| Interpreter.ParamsKeep | src/callable.rs:53-87 | binding parameters keeps every other name of the scope |
| Interpreter.ReturnEndsBody | src/interpreter.rs:170-175 | a return ends the body: what follows it is not run, and a bare return finishes without touching the heap |
| Executor.Interpret | src/interpreter.rs:24-36 | the statement loop computes Interpreter.Interpret |
| Executor.Execute | src/interpreter.rs:38-230 | executing a statement computes Interpreter.Exec |
| Executor.ExecuteWhile | src/interpreter.rs:197-228 | the while loop computes Interpreter.Exec of the while statement |
| Executor.LoopWhile | src/interpreter.rs:197-228 | the iteration loop computes Interpreter.ExecWhile |
| Executor.Iteration | src/interpreter.rs:197-228 | one iteration computes Interpreter.Iterate |
| Executor.ExecuteClass | src/interpreter.rs:52-115 | executing a class declaration computes Interpreter.ExecClass |
| Executor.CollectMethods | src/interpreter.rs:52-115 | the loop over the class body computes Interpreter.ClassMethods |
| Executor.EvalArguments | src/interpreter.rs:243-270 | the argument loop computes Interpreter.EvalArgs |
| Executor.CallFunction | src/callable.rs:53-87 | the call, parameter binding loop included, computes Interpreter.CallFunction |
| Executor.RunBody | src/callable.rs:53-87 | the body loop computes Interpreter.ExecBody |
| Resolution.BeginScope | src/resolver.rs:193-195 | pushes one empty scope as the innermost and keeps every other scope, the depth table and the error log |
| Resolution.EndScope | src/resolver.rs:197-199 | pops exactly the innermost scope (nothing on an empty stack) and keeps the table and the log |
| Resolution.Mark | src/resolver.rs:201-217 | declare and define record the name in the innermost scope only (as not ready or ready); at global scope they do nothing |
| Resolution.Innermost | src/resolver.rs:219-231 | the scope found holds the key and lies at or beyond the starting scope |
| Resolution.ResolveLocal | src/resolver.rs:219-231 | resolving a name keeps the scopes and the log and only adds depth entries |
| Resolution.CheckInitialized | src/resolver.rs:174-183 | a variable read logs the own-initializer error exactly when the innermost scope declares it without defining it |
| Resolution.ResolveExpr | src/resolver.rs:114-191 | resolving an expression leaves the scope stack as it was and only adds depth entries and errors |
| Resolution.ResolveExprs | src/resolver.rs:114-191 | resolving a list of expressions leaves the scopes as they were and only adds depth entries and errors |
| Resolution.Bind | src/resolver.rs:201-217 | declaring and defining a name changes only the innermost scope |
| Resolution.BindAll | src/resolver.rs:233-250 | binding the parameters changes only the innermost scope |
| Resolution.ResolveStmt | src/resolver.rs:15-112 | a statement changes only the innermost scope and only adds depth entries and errors |
| Resolution.ResolveClass | src/resolver.rs:28-66 | a class declaration changes only the innermost scope and only adds depth entries and errors |
| Resolution.ResolveMethods | src/resolver.rs:28-66 | resolving the methods changes only the innermost scope and only adds depth entries and errors |
| Resolution.ResolveFunction | src/resolver.rs:233-250 | a function body is resolved in its own scope, which is gone afterwards |
| Resolution.ResolveStmts | src/resolver.rs:6-14 | a statement list changes only the innermost scope and only adds depth entries and errors |
| Resolution.InnermostFirst | src/resolver.rs:219-231 | the search fails exactly when no scope holds the key, and otherwise finds the nearest one |
| Resolution.ResolveLocalDepth | src/resolver.rs:219-231 | a name no scope holds is left global (no entry); otherwise its entry is the distance to the nearest scope holding it |
| Resolution.GlobalScope | src/resolver.rs:201-231 | at global scope declare and define do nothing and an expression records no depths |
| Resolution.GlobalScopeAll | src/resolver.rs:114-191 | at global scope a list of expressions records no depths |
| Resolution.ScopesRestored | src/resolver.rs:15-66 | a block leaves the scopes as they were; a class or function leaves only its name bound in the innermost scope |
| Resolution.VarSeesItselfDeclared | src/resolver.rs:96-106 | var a = a; in a local scope logs the own-initializer error, resolves the use at depth 0 and ends with a defined |
| Resolver.ResolveLocal | src/resolver.rs:219-231 | the loop over the scopes computes Resolution.ResolveLocal |
| Resolver.ResolveExpr | src/resolver.rs:114-191 | the method computes Resolution.ResolveExpr |
| Resolver.ResolveStmt | src/resolver.rs:15-112 | the method computes Resolution.ResolveStmt |
| Resolver.ResolveClass | src/resolver.rs:28-66 | the method computes Resolution.ResolveClass |
| Resolver.ResolveFunction | src/resolver.rs:233-250 | the method computes Resolution.ResolveFunction |
| Resolver.ResolveStmts | src/resolver.rs:6-14 | the loop computes Resolution.ResolveStmts |
| Scanner.DecimalValueExamples | src/scanner.rs:210-235 | a number lexeme denotes its decimal value (42 and 1.25 worked through) |
| Scanner.SkipBlanks | src/scanner.rs:27-54 | skipping blanks stops at the first non-blank character or the end, and everything skipped is blank |
| Scanner.DigitRun | src/scanner.rs:210-235 | the digit run extends over digits only and stops before the first non-digit or at the last character |
| Scanner.WordRun | src/scanner.rs:236-253 | the word run extends over letters, digits and underscores only and stops before anything else or at the last character |
| Scanner.StringEnd | src/scanner.rs:195-209 | the string end is the first double quote from the start position, or the end of the input |
| Scanner.SingleToken | src/scanner.rs:60-109 | exactly the ten one-character punctuators ( ) { } , . - + ; * make a token on their own |
| Scanner.OperatorToken | src/scanner.rs:110-177 | exactly ! = < > start a one- or two-character operator |
| Scanner.KeywordsAreNotEof | src/scanner.rs:7-24 | no keyword maps to the end-of-input token |
| Scanner.NumberEnd | src/scanner.rs:210-235 | a number ends at or after its first digit, inside the input |
| Scanner.FindStringEnd | src/scanner.rs:195-209 | the loop finds the first double quote from the start (or the end of the input) |
| Scanner.FindDigitRun | src/scanner.rs:210-235 | the loop finds the end of the digit run |
| Scanner.FindWordRun | src/scanner.rs:236-253 | the loop finds the end of the word |
| Scanner.ScanString | src/scanner.rs:195-209 | scanning a string does what the token function says |
| Scanner.FindNumberEnd | src/scanner.rs:210-235 | the loops over the integer and fraction parts find the end of the number |
| Scanner.ScanNumber | src/scanner.rs:210-235 | scanning a number always succeeds, as the token function says |
| Scanner.ScanWord | src/scanner.rs:236-253 | scanning a word does what the token function says |
| Scanner.ScanToken | src/scanner.rs:56-259 | scanning one token does what the token function says |
| Scanner.TokenAtAdvances | src/scanner.rs:56-259 | a token consumes at least one character, stays in the input unless it is the end token, and carries the current line |
| Scanner.OperatorTakesEqual | src/scanner.rs:110-177 | ! = < > followed by = make the two-character operator and otherwise the one-character one |
| Scanner.CommentEndsInput | src/scanner.rs:178-194 | // ends scanning: it yields the end token and moves past the input |
| Scanner.EofOnlyFromComment | src/scanner.rs:178-194 | the end token comes from a comment and nothing else |
| Scanner.StringLexeme | src/scanner.rs:195-209 | a string fails exactly when no closing quote follows; otherwise its value is the text between the quotes, which holds no quote |
| Scanner.IdentifierLexeme | src/scanner.rs:236-253 | a word is the longest run of letters, digits and underscores; it is a keyword token when listed and an identifier otherwise, and carries its text |
| Scanner.UnknownCharacterFails | src/scanner.rs:254-258 | any other character is an error (whose message, as written, says Unterminated string.) |
| Scanner.ScanFromTurn | src/scanner.rs:27-54 | one turn of the scanning loop skips blanks, scans one token and continues after it, stopping at the first error |
| Scanner.AppendPrepend | src/scanner.rs:27-54 | prepending a token to the rest of the scan and then appending is appending the token first |
| Scanner.ScanTokens | src/scanner.rs:27-54 | the scanning loop computes the whole token list, or the first error |
| Scanner.ScanFromEofLast | src/scanner.rs:27-54 | no token before the last of a scan is an end token, and every token carries the input line |
| Scanner.ScanAllEndsWithEof | src/scanner.rs:27-54 | a successful scan ends with exactly one end token, and every token carries the input line (the line is never advanced) |
| Grammar.Expression | src/parser.rs:362-365 | parsing an expression never consumes the end token and, when it succeeds, consumes at least one token |
| Grammar.Assignment | src/parser.rs:366-396 | an assignment parse never consumes the end token and consumes at least one token on success |
| Grammar.AssignTo | src/parser.rs:366-396 | a successful assignment to a target builds an assignment or a property set |
| Grammar.Or | src/parser.rs:398-411 | an or-chain parse never consumes the end token and consumes at least one token on success |
| Grammar.OrRest | src/parser.rs:398-411 | the loop over or operators only moves forward and never past the end token |
| Grammar.And | src/parser.rs:412-425 | an and-chain parse never consumes the end token and consumes at least one token on success |
| Grammar.AndRest | src/parser.rs:412-425 | the loop over and operators only moves forward and never past the end token |
| Grammar.Equality | src/parser.rs:426-444 | an equality parse never consumes the end token and consumes at least one token on success |
| Grammar.EqualityRest | src/parser.rs:426-444 | the loop over == and != only moves forward and never past the end token |
| Grammar.Comparison | src/parser.rs:445-470 | a comparison parse never consumes the end token and consumes at least one token on success |
| Grammar.ComparisonRest | src/parser.rs:445-470 | the loop over < <= > >= only moves forward and never past the end token |
| Grammar.Term | src/parser.rs:471-489 | a term parse never consumes the end token and consumes at least one token on success |
| Grammar.TermRest | src/parser.rs:471-489 | the loop over + and - only moves forward and never past the end token |
| Grammar.Factor | src/parser.rs:490-507 | a factor parse never consumes the end token and consumes at least one token on success |
| Grammar.FactorRest | src/parser.rs:490-507 | the loop over * and / only moves forward and never past the end token |
| Grammar.Unary | src/parser.rs:508-518 | a unary parse never consumes the end token and consumes at least one token on success |
| Grammar.Call | src/parser.rs:519-540 | a call parse never consumes the end token and consumes at least one token on success |
| Grammar.CallRest | src/parser.rs:519-540 | the postfix loop only wraps the callee in calls and property accesses |
| Grammar.FinishCall | src/parser.rs:541-573 | a finished call has the given callee and at most 255 arguments under the corrected cap; as written the source keeps at most 254 (Grammar.ArgumentLimit) |
| Grammar.Arguments | src/parser.rs:541-573 | the argument loop stops at a closing parenthesis and keeps the number of arguments under the cap |
| Grammar.ArgumentsAsWritten | src/parser.rs:545-565 | as written, the argument loop keeps fewer than 255 arguments |
| Grammar.ArgumentLimit | src/parser.rs:545-565 | as written, a 255th argument is refused with the message about more than 255 arguments; with the corrected cap it is accepted |
| Grammar.Primary | src/parser.rs:575-666 | a primary parse never consumes the end token and consumes at least one token on success |
| Grammar.Grouping | src/parser.rs:575-666 | a parenthesised expression consumes at least the opening parenthesis on success |
| Grammar.SuperAccess | src/parser.rs:575-666 | a super access consumes at least its keyword on success and builds a primary-level node |
| Grammar.ExpressionLevel | src/parser.rs:362-365 | every parsed expression is well associated: binary and logical operators group to the left and bind by precedence |
| Grammar.AssignmentLevel | src/parser.rs:366-396 | an assignment-level parse yields a well-associated tree |
| Grammar.AssignToLevel | src/parser.rs:366-396 | assigning to a well-associated target yields a well-associated tree |
| Grammar.OrLevel | src/parser.rs:398-411 | an or-level parse yields a well-associated tree of or-level or tighter |
| Grammar.OrRestLevel | src/parser.rs:398-411 | the or loop keeps the tree left-associated |
| Grammar.AndLevel | src/parser.rs:412-425 | an and-level parse yields a well-associated tree of and-level or tighter |
| Grammar.AndRestLevel | src/parser.rs:412-425 | the and loop keeps the tree left-associated |
| Grammar.EqualityLevel | src/parser.rs:426-444 | an equality-level parse yields a well-associated tree of equality-level or tighter |
| Grammar.EqualityRestLevel | src/parser.rs:426-444 | the equality loop keeps the tree left-associated |
| Grammar.ComparisonLevel | src/parser.rs:445-470 | a comparison-level parse yields a well-associated tree of comparison-level or tighter |
| Grammar.ComparisonRestLevel | src/parser.rs:445-470 | the comparison loop keeps the tree left-associated |
| Grammar.TermLevel | src/parser.rs:471-489 | a term-level parse yields a well-associated tree of term-level or tighter |
| Grammar.TermRestLevel | src/parser.rs:471-489 | the term loop keeps the tree left-associated |
| Grammar.FactorLevel | src/parser.rs:490-507 | a factor-level parse yields a well-associated tree of factor-level or tighter |
| Grammar.FactorRestLevel | src/parser.rs:490-507 | the factor loop keeps the tree left-associated |
| Grammar.UnaryLevel | src/parser.rs:508-518 | a unary parse yields a well-associated tree of the tightest level |
| Grammar.CallLevel | src/parser.rs:519-540 | a call parse yields a well-associated tree of the tightest level |
| Grammar.CallRestLevel | src/parser.rs:519-540 | the postfix loop keeps the tree at the tightest level |
| Grammar.FinishCallLevel | src/parser.rs:541-573 | a finished call is a well-associated tree of the tightest level |
| Grammar.ArgumentsAssociated | src/parser.rs:541-573 | every parsed argument is well associated |
| Grammar.PrimaryLevel | src/parser.rs:575-666 | a primary is a well-associated tree of the tightest level |
| StmtGrammar.Declaration | src/parser.rs:44-56 | a declaration never consumes the end token, consumes input on success, and always consumes input when it starts with a statement keyword |
| StmtGrammar.ClassDeclaration | src/parser.rs:58-106 | a class declaration consumes at least its keyword, success or failure |
| StmtGrammar.Superclass | src/parser.rs:58-106 | a superclass clause < Name consumes two tokens and becomes a variable expression with the next fresh id |
| StmtGrammar.ClassBody | src/parser.rs:58-106 | parsing the class body only moves forward and never past the end token |
| StmtGrammar.Methods | src/parser.rs:58-106 | the method loop stops at the closing brace |
| StmtGrammar.FunctionDeclaration | src/parser.rs:107-111 | a function declaration consumes at least its keyword |
| StmtGrammar.Function | src/parser.rs:112-173 | a function or method parse consumes input on success and never the end token |
| StmtGrammar.Parameters | src/parser.rs:112-173 | a parameter list runs from ( to ), takes no fresh ids and holds at most 255 parameters |
| StmtGrammar.ParamList | src/parser.rs:112-173 | a parameter list stops at the closing parenthesis with at most 255 parameters |
| StmtGrammar.Params | src/parser.rs:112-173 | the parameter loop keeps at most 255 parameters and stops at the closing parenthesis |
| StmtGrammar.FunctionBody | src/parser.rs:112-173 | parsing a function body only moves forward and never past the end token |
| StmtGrammar.VarDeclaration | src/parser.rs:174-202 | a variable declaration consumes at least its keyword |
| StmtGrammar.Initializer | src/parser.rs:174-202 | an initializer starts with = and consumes at least two tokens |
| StmtGrammar.VarEnd | src/parser.rs:174-202 | finishing a variable declaration only moves forward and never past the end token |
| StmtGrammar.Statement | src/parser.rs:203-221 | a statement consumes input on success, and always when it starts with if, while, print or return |
| StmtGrammar.BlockStatement | src/parser.rs:222-225 | a block statement consumes at least its opening brace |
| StmtGrammar.Block | src/parser.rs:226-245 | a block consumes at least its opening brace |
| StmtGrammar.BlockBody | src/parser.rs:226-245 | the block loop only moves forward and never past the end token |
| StmtGrammar.IfStatement | src/parser.rs:246-280 | an if statement consumes at least its keyword |
| StmtGrammar.Condition | src/parser.rs:246-326 | a condition runs from ( to ) with an expression between |
| StmtGrammar.IfBranches | src/parser.rs:246-280 | the branches only move forward and never past the end token |
| StmtGrammar.ReturnStatement | src/parser.rs:281-299 | a return statement consumes at least its keyword |
| StmtGrammar.WhileStatement | src/parser.rs:300-326 | a while statement consumes at least its keyword |
| StmtGrammar.PrintStatement | src/parser.rs:327-344 | a print statement consumes at least its keyword |
| StmtGrammar.ExpressionStatement | src/parser.rs:345-361 | an expression statement consumes input on success and never the end token |
| StmtGrammar.Discard | src/parser.rs:668-688 | recovery drops only ordinary tokens and stops just after a semicolon, or at a stop keyword or the end token, which it leaves in place |
| StmtGrammar.SynchronizeAsWritten | src/parser.rs:668-688 | as written, recovery stops at for without consuming anything |
| StmtGrammar.Synchronize | src/parser.rs:668-688 | recovery never passes the end token and consumes at least one token unless it stands on a statement keyword |
| StmtGrammar.ParseFrom | src/parser.rs:14-32 | the declaration loop ends on the end token and only takes fresh ids |
| StmtGrammar.Parse | src/parser.rs:14-32 | a whole parse ends on the end token |
| StmtGrammar.ParseFromAsWritten | src/parser.rs:14-32 | as written, when the loop ends, it ends on the end token |
| StmtGrammar.DeclarationFailsInPlace | src/parser.rs:575-666 | a token that can start neither a declaration, a statement nor an expression fails with Uncorrected matching. and consumes nothing |
| StmtGrammar.ForNeverFinishes | src/parser.rs:14-56 | as written, a program reaching a for keyword never finishes parsing, whatever fuel is given |
| StmtGrammar.ParseReportsFailure | src/parser.rs:14-32 | the parse fails with Interpretation stopped. exactly when some declaration failed, and otherwise yields every declaration |
| StmtGrammar.FailedStaysFailed | src/parser.rs:14-32 | once a declaration has failed, the whole parse reports failure |
| StmtGrammar.ForIsReported | src/parser.rs:668-688 | with recovery that passes over for, a for statement is an error and the parse finishes reporting failure |
| TreeParser.Parser.constructor | src/parser.rs:14-32 | the parser starts at the head of the token queue with the given next id |
| TreeParser.Parser.PopFront | src/parser.rs:34-42 | popping returns the head token and moves past it, keeping the id counter |
| TreeParser.Parser.GetCount | src/parser.rs:575-666 | taking an id returns the current counter and increments it, keeping the queue |
| TreeParser.Parser.Error | src/parser.rs:575-666 | an error carries the head token's line and leaves the queue and the counter as they were |
| TreeParser.Parser.Expression | src/parser.rs:362-365 | the method over the token queue computes Grammar.Expression: the same result, queue position and next id |
| TreeParser.Parser.Assignment | src/parser.rs:366-396 | the method over the token queue computes Grammar.Assignment: the same result, queue position and next id |
| TreeParser.Parser.AssignTo | src/parser.rs:366-396 | the method over the token queue computes Grammar.AssignTo: the same result, queue position and next id |
| TreeParser.Parser.Or | src/parser.rs:398-411 | the method over the token queue computes Grammar.Or: the same result, queue position and next id |
| TreeParser.Parser.OrRest | src/parser.rs:398-411 | the method over the token queue computes Grammar.OrRest: the same result, queue position and next id |
| TreeParser.Parser.And | src/parser.rs:412-425 | the method over the token queue computes Grammar.And: the same result, queue position and next id |
| TreeParser.Parser.AndRest | src/parser.rs:412-425 | the method over the token queue computes Grammar.AndRest: the same result, queue position and next id |
| TreeParser.Parser.Equality | src/parser.rs:426-444 | the method over the token queue computes Grammar.Equality: the same result, queue position and next id |
| TreeParser.Parser.EqualityRest | src/parser.rs:426-444 | the method over the token queue computes Grammar.EqualityRest: the same result, queue position and next id |
| TreeParser.Parser.Comparison | src/parser.rs:445-470 | the method over the token queue computes Grammar.Comparison: the same result, queue position and next id |
| TreeParser.Parser.ComparisonRest | src/parser.rs:445-470 | the method over the token queue computes Grammar.ComparisonRest: the same result, queue position and next id |
| TreeParser.Parser.Term | src/parser.rs:471-489 | the method over the token queue computes Grammar.Term: the same result, queue position and next id |
| TreeParser.Parser.TermRest | src/parser.rs:471-489 | the method over the token queue computes Grammar.TermRest: the same result, queue position and next id |
| TreeParser.Parser.Factor | src/parser.rs:490-507 | the method over the token queue computes Grammar.Factor: the same result, queue position and next id |
| TreeParser.Parser.FactorRest | src/parser.rs:490-507 | the method over the token queue computes Grammar.FactorRest: the same result, queue position and next id |
| TreeParser.Parser.Unary | src/parser.rs:508-518 | the method over the token queue computes Grammar.Unary: the same result, queue position and next id |
| TreeParser.Parser.Call | src/parser.rs:519-540 | the method over the token queue computes Grammar.Call: the same result, queue position and next id |
| TreeParser.Parser.CallRest | src/parser.rs:519-540 | the method over the token queue computes Grammar.CallRest: the same result, queue position and next id |
| TreeParser.Parser.FinishCall | src/parser.rs:541-573 | the method over the token queue computes Grammar.FinishCall: the same result, queue position and next id |
| TreeParser.Parser.Arguments | src/parser.rs:541-573 | the argument loop over the queue computes Grammar.Arguments with the corrected cap of 255 arguments |
| TreeParser.Parser.Primary | src/parser.rs:575-666 | the method over the token queue computes Grammar.Primary: the same result, queue position and next id |
| TreeParser.Parser.Declaration | src/parser.rs:44-56 | the method over the token queue computes StmtGrammar.Declaration: the same result, queue position and next id |
| TreeParser.Parser.ClassDeclaration | src/parser.rs:58-106 | the method over the token queue computes StmtGrammar.ClassDeclaration: the same result, queue position and next id |
| TreeParser.Parser.Superclass | src/parser.rs:58-106 | the method over the token queue computes StmtGrammar.Superclass: the same result, queue position and next id |
| TreeParser.Parser.ClassBody | src/parser.rs:58-106 | the method over the token queue computes StmtGrammar.ClassBody: the same result, queue position and next id |
| TreeParser.Parser.FunctionDeclaration | src/parser.rs:107-111 | the method over the token queue computes StmtGrammar.FunctionDeclaration: the same result, queue position and next id |
| TreeParser.Parser.Function | src/parser.rs:112-173 | the method over the token queue computes StmtGrammar.Function: the same result, queue position and next id |
| TreeParser.Parser.Parameters | src/parser.rs:112-173 | the method over the token queue computes StmtGrammar.Parameters: the same result, queue position and next id |
| TreeParser.Parser.ParamList | src/parser.rs:112-173 | the method over the token queue computes StmtGrammar.ParamList: the same result, queue position and next id |
| TreeParser.Parser.FunctionBody | src/parser.rs:112-173 | the method over the token queue computes StmtGrammar.FunctionBody: the same result, queue position and next id |
| TreeParser.Parser.VarDeclaration | src/parser.rs:174-202 | the method over the token queue computes StmtGrammar.VarDeclaration: the same result, queue position and next id |
| TreeParser.Parser.Initializer | src/parser.rs:174-202 | the method over the token queue computes StmtGrammar.Initializer: the same result, queue position and next id |
| TreeParser.Parser.Statement | src/parser.rs:203-221 | the method over the token queue computes StmtGrammar.Statement: the same result, queue position and next id |
| TreeParser.Parser.BlockStatement | src/parser.rs:222-225 | the method over the token queue computes StmtGrammar.BlockStatement: the same result, queue position and next id |
| TreeParser.Parser.Block | src/parser.rs:226-245 | the method over the token queue computes StmtGrammar.Block: the same result, queue position and next id |
| TreeParser.Parser.IfStatement | src/parser.rs:246-280 | the method over the token queue computes StmtGrammar.IfStatement: the same result, queue position and next id |
| TreeParser.Parser.Condition | src/parser.rs:246-326 | the method over the token queue computes StmtGrammar.Condition: the same result, queue position and next id |
| TreeParser.Parser.IfBranches | src/parser.rs:246-280 | the method over the token queue computes StmtGrammar.IfBranches: the same result, queue position and next id |
| TreeParser.Parser.ReturnStatement | src/parser.rs:281-299 | the method over the token queue computes StmtGrammar.ReturnStatement: the same result, queue position and next id |
| TreeParser.Parser.WhileStatement | src/parser.rs:300-326 | the method over the token queue computes StmtGrammar.WhileStatement: the same result, queue position and next id |
| TreeParser.Parser.PrintStatement | src/parser.rs:327-344 | the method over the token queue computes StmtGrammar.PrintStatement: the same result, queue position and next id |
| TreeParser.Parser.ExpressionStatement | src/parser.rs:345-361 | the method over the token queue computes StmtGrammar.ExpressionStatement: the same result, queue position and next id |
| TreeParser.Parser.Synchronize | src/parser.rs:668-688 | the recovery loop over the queue computes StmtGrammar.Synchronize |
| TreeParser.Parser.Parse | src/parser.rs:14-32 | the declaration loop over the queue computes StmtGrammar.ParseFrom from an empty list |
| Lexer.Newlines | src/compile.rs:196-216 | the number of newlines in a text is at most its length |
| Lexer.NewlinesSplit | src/compile.rs:196-216 | newline counts add up over a split of the text |
| Lexer.NewlinesStep | src/compile.rs:196-216 | newline counts add up over adjacent slices |
| Lexer.CommentEnd | src/compile.rs:206-209 | a comment runs up to the first newline or the end of the input, and holds no newline |
| Lexer.CommentHasNoNewline | src/compile.rs:206-209 | skipping a comment counts no line |
| Lexer.CommentAsWrittenPanics | src/compile.rs:206-209 | as written, the comment loop reads past the input exactly when no newline ends the comment, and otherwise agrees with the corrected end |
| Lexer.TrailingCommentPanics | src/compile.rs:206-209 | as written, 1; // one reads past its end, where the corrected loop stops at the end of the input |
| Lexer.StringEnd | src/compile.rs:143-160 | a string runs up to the first closing quote or the end of the input, and the line advances by the newlines inside it |
| Lexer.StringAsWrittenPanics | src/compile.rs:143-160 | as written, the string loop reads past the input exactly when the string is unterminated, and otherwise agrees with the corrected end |
| Lexer.DigitsEnd | src/compile.rs:161-171 | a digit run stops at the first non-digit or the end |
| Lexer.WordEnd | src/compile.rs:172-182 | a word stops at the first character that is not a letter, digit or underscore, or the end |
| Lexer.SkipSpace | src/compile.rs:196-216 | skipping whitespace stops at the end or at a character that is neither blank nor the start of a comment; a comment is skipped to CommentEnd, the corrected loop that stops at the end of the input |
| Lexer.SkipSpaceCountsLines | src/compile.rs:196-216 | skipping whitespace advances the line by exactly the newlines skipped |
| Lexer.Operator | src/compile.rs:91-190 | exactly ! = < > start a one- or two-character operator |
| Lexer.Single | src/compile.rs:91-190 | exactly the eleven characters ( ) { } ; , . - + / * make a token on their own |
| Lexer.Slice | src/compile.rs:243-246 | a slice inside the source is that part of the source |
| Lexer.NumberEnd | src/compile.rs:161-171 | a number consumes at least its first digit and stays inside the input |
| Lexer.Scan | src/compile.rs:91-190 | scanning a token only moves forward and stays inside the input |
| Lexer.ScanAt | src/compile.rs:91-190 | scanning from a token start only moves forward and stays inside the input |
| Lexer.TokenInSource | src/compile.rs:91-190 | a token's start and length locate its lexeme just before the new position; the end token is the only empty one; a string token includes both quotes |
| Lexer.ScanMoves | src/compile.rs:91-190 | every scan makes progress except the end token, which is only produced at the end of the input |
| Lexer.EqualMakesTwoCharacters | src/compile.rs:91-190 | ! = < > followed by = make the two-character operator and otherwise the one-character one |
| Lexer.StringToken | src/compile.rs:143-160 | with the corrected string loop, a string fails as unterminated exactly when no quote follows, and otherwise ends at the first closing quote; as written the source reads past the end instead (Lexer.StringAsWrittenPanics) |
| Lexer.WordToken | src/compile.rs:172-182 | a word is the longest run of letters, digits and underscores, a keyword when listed and an identifier otherwise |
| Lexer.UnknownCharacter | src/compile.rs:184-189 | any other character is an unknown-token error that consumes that one character |
| Lexer.Scanner.constructor | src/compile.rs:78-85 | a new scanner reads the given source from position 0 at line 1 |
| Lexer.Scanner.Advance | src/compile.rs:218-221 | advance returns the current character and moves one place |
| Lexer.Scanner.IsMatch | src/compile.rs:223-232 | matching consumes the next character exactly when it is the expected one |
| Lexer.Scanner.MakeToken | src/compile.rs:234-241 | a token spans from its start to the current position and carries the current line and the given type |
| Lexer.Scanner.GetString | src/compile.rs:243-246 | reading a lexeme returns that part of the source |
| Lexer.Scanner.SkipComment | src/compile.rs:206-209 | the comment loop stops where CommentEnd says, testing for the end before looking ahead (the corrected order; as written see Lexer.CommentAsWrittenPanics) |
| Lexer.Scanner.SkipWhitespace | src/compile.rs:196-216 | the whitespace loop computes SkipSpace, line count included |
| Lexer.Scanner.ScanString | src/compile.rs:143-160 | the string loop stops at the closing quote, counting lines, and with the corrected order of tests reports an unterminated string at the end of the input |
| Lexer.Scanner.ScanNumber | src/compile.rs:161-171 | the number loops stop where NumberEnd says and make a number token |
| Lexer.Scanner.SkipDigits | src/compile.rs:161-171 | the digit loop stops where DigitsEnd says |
| Lexer.Scanner.ScanWord | src/compile.rs:172-182 | the word loop stops where WordEnd says and makes a keyword or identifier token |
| Lexer.Scanner.ScanToken | src/compile.rs:91-190 | one token scan computes Scan |
| Lexer.Scanner.ScanLexeme | src/compile.rs:91-190 | scanning from a token start computes ScanAt |
| CompileScope.Level | src/compile.rs:12-25 | every precedence has a numeric level of at most 10 (Primary) |
| CompileScope.LevelInjective | src/compile.rs:27-48 | precedences are ordered totally by their level, and distinct precedences have distinct levels |
| CompileScope.Next | src/compile.rs:27-48 | the next precedence is one level higher, saturating at Primary |
| CompileScope.GetPrecedence | src/compile.rs:1023-1037 | + and - bind as terms, * and / as factors, == and != as equality, < <= > >= as comparison, ( and . as calls, and and or as themselves; every other token has no precedence |
| CompileScope.InfixTokens | src/compile.rs:1023-1037 | exactly the binary operators, and, or, ( and . have an infix precedence; the end token has none; a binary operator's right operand binds strictly tighter than the operator |
| CompileScope.InitScope | src/compile.rs:1001-1012 | a new function scope holds one reserved local (slot 0) at depth 0 and captures nothing |
| CompileScope.Shapes | src/compile.rs:387-430 | the shape of a scope history lists each scope's depth and number of locals |
| CompileScope.ShapesPop | src/compile.rs:387-430 | histories with the same shapes keep the same shapes, and the same innermost shape, after dropping the innermost scope |
| CompileScope.Truncate | src/compile.rs:345-356 | the cast to u8 keeps every value below 256 |
| CompileScope.TruncateNext | src/compile.rs:345-356 | incrementing after the cast to u8 is the cast of the increment (wrap-around arithmetic) |
| CompileScope.Floor | src/compile.rs:454-473 | the redeclaration search looks back over the locals of the current block only, stopping at the first local of an outer block |
| CompileScope.LastNamed | src/compile.rs:754-768 | the local found is the innermost one with that name, and none is found when no local has it |
| CompileScope.Trailing | src/compile.rs:513-528 | ending a scope removes exactly the trailing locals deeper than the new depth |
| CompileScope.ClosingCode | src/compile.rs:513-528 | one pop or close-upvalue byte is emitted per removed local, innermost first |
| CompileScope.FindUpvalue | src/compile.rs:279-299 | the upvalue search finds an equal entry, or reports that none exists |
| CompileScope.AddUpvalue | src/compile.rs:279-299 | adding an upvalue changes only the upvalue list of the scope |
| CompileScope.AddUpvalueDeduplicates | src/compile.rs:279-299 | adding an upvalue already listed reuses its index; a new one is appended; the list stays free of duplicates and the index returned names the upvalue |
| CompileScope.MarkCaptured | src/compile.rs:740-752 | marking a local captured changes that local's flag and nothing else |
| CompileScope.Thread | src/compile.rs:740-752 | threading an upvalue through the intermediate functions leaves the outer scopes and every scope's locals as they were |
| CompileScope.Capture | src/compile.rs:740-752 | capturing a local marks it captured in its own scope and changes no scope's locals or depth |
| CompileScope.ThreadDistinct | src/compile.rs:740-752 | threading keeps every upvalue list free of duplicates |
| CompileScope.CaptureDistinct | src/compile.rs:740-752 | capturing keeps every upvalue list free of duplicates |
| CompileScope.Holds | src/compile.rs:726-738 | a scope holds a name at a slot whose local has that name |
| CompileScope.Enclosing | src/compile.rs:726-738 | the enclosing scope found is the innermost one holding the name, and none is found when no enclosing scope holds it |
| Compiler.TypeName | src/compile.rs:899-910 | every token type has a non-empty name for the expected-token message |
| Compiler.Repeat | src/compile.rs:321-328 | the line table gets one entry, the current line, per emitted byte |
| Compiler.BinaryCode | src/compile.rs:670-695 | exactly the binary operators emit code; != >= <= emit two bytes ending in OP_NOT and the others one |
| Compiler.NegatedComparisons | src/compile.rs:670-695 | != is == then not, >= is < then not, and <= is > then not |
| Compiler.CloseLocals | src/compile.rs:513-528 | ending a scope keeps the locals up to the last one of the outer block and emits one closing byte per removed local, innermost first |
| Compiler.CaptureIn | src/compile.rs:740-752 | capturing through the scope history computes CompileScope.Capture |
| Compiler.LoopTail | src/compile.rs:590-620 | after the loop jump and the exit patch, the exit operand holds the patch and the loop opcode, its operand and the final pop sit at the end |
| Compiler.LoopClosed | src/compile.rs:608-620 | closing a while loop adds the loop instruction and the final pop |
| Compiler.LoopClosedShape | src/compile.rs:590-620 | the loop instruction jumps back to the start of the condition and the exit jump lands just past the loop |
| Compiler.LoopCode | src/compile.rs:590-620 | the emitted loop bytes are LoopClosed, and each byte gets the current line |
| Compiler.AppendBytes | src/compile.rs:321-328 | emitting appends the bytes to the code and the current line once per byte to the line table |
| Compiler.Overwrite | src/compile.rs:599-606 | patching replaces exactly the operand bytes and keeps the rest of the code |
| Compiler.PatchedTail | src/compile.rs:599-606 | patching leaves every byte after the operand unchanged |
| Compiler.PatchedAt | src/compile.rs:599-606 | after patching, the operand bytes are the new ones |
| Compiler.ReturnsNilAppended | src/compile.rs:330-332 | the implicit return emits OP_NIL then OP_RETURN at the end of the code |
| Compiler.DefinesGlobalAppended | src/compile.rs:492-499 | defining a global ends the code with OP_DEFINE_GLOBAL and the name's constant index |
| Compiler.UpvalueCode | src/compile.rs:387-430 | each captured variable is encoded as two bytes: 1 for a local of the enclosing function or 0 for one of its upvalues, then the index |
| Compiler.UpvalueBytes | src/compile.rs:387-430 | the loop over the upvalues emits UpvalueCode |
| Compiler.AccessDistinguishes | src/compile.rs:770-796 | the access opcode tells get from set, and local from upvalue from global |
| Compiler.AddUpvalueTo | src/compile.rs:279-299 | the search-or-push of the upvalue macro computes CompileScope.AddUpvalue |
| Compiler.Parser.constructor | src/compile.rs:248-277 | a new compiler scans the given source from its start, with an empty chunk, a fresh function scope, no enclosing functions and no errors |
| Compiler.Parser.Advance | src/compile.rs:314-319 | advancing shifts the current token to previous and scans the next one, passing a scan error on; nothing else changes |
| Compiler.Parser.MatchAdvance | src/compile.rs:916-923 | matching consumes the current token exactly when it has the wanted type, and otherwise changes nothing |
| Compiler.Parser.Expect | src/compile.rs:899-910 | expect consumes a token of the wanted type, and otherwise fails with the expected-versus-found message, consuming nothing |
| Compiler.Parser.EmitByte | src/compile.rs:321-323 | emitting a byte appends it, with the previous token's line, and changes nothing else |
| Compiler.Parser.EmitBytes | src/compile.rs:325-328 | emitting two bytes appends them in order |
| Compiler.Parser.EmitReturn | src/compile.rs:330-332 | the implicit return appends OP_NIL and OP_RETURN |
| Compiler.Parser.MakeConstant | src/compile.rs:345-356 | the value is added to the constant pool; the index is returned while the pool held fewer than 256 values and otherwise the too-many-constants error |
| Compiler.Parser.EmitConstant | src/compile.rs:339-343 | a constant is added to the pool and, when its index fits a byte, OP_CONSTANT and the index are emitted; otherwise nothing is emitted and the error is returned |
| Compiler.Parser.EmitAll | src/compile.rs:321-328 | a byte sequence is emitted in order |
| Compiler.Parser.EmitJump | src/compile.rs:582-588 | a jump is emitted as its opcode and eight placeholder bytes, and the position of the placeholder is returned |
| Compiler.Parser.PatchJump | src/compile.rs:599-606 | patching writes the distance from the end of the operand to the end of the code into the operand, little-endian, and changes no other byte |
| Compiler.Parser.BeginScope | src/compile.rs:509-511 | entering a block increments the scope depth and changes nothing else |
| Compiler.Parser.EndScope | src/compile.rs:513-528 | leaving a block decrements the depth, drops the locals deeper than it and emits a pop or close-upvalue byte for each, innermost first |
| Compiler.Parser.DeclareVariable | src/compile.rs:454-473 | at global scope declaring does nothing; in a block, a name already declared in the same block is an error, and otherwise a new uninitialized local is added |
| Compiler.Parser.AddLocal | src/compile.rs:479-486 | a new local with the token's name, depth -1 (uninitialized) and not captured is appended |
| Compiler.Parser.IdentifierConstant | src/compile.rs:488-490 | the variable's name is added to the constant pool as a string, with its index when it fits a byte |
| Compiler.Parser.MakeInitialized | src/compile.rs:501-507 | at global scope nothing changes; in a block the last local gets the current depth |
| Compiler.Parser.DefineVariable | src/compile.rs:492-499 | in a block the last local is marked initialized and nothing is emitted; at global scope OP_DEFINE_GLOBAL with the name's index is emitted |
| Compiler.Parser.ParseVariable | src/compile.rs:443-452 | a variable name must be an identifier; in a block it becomes a new local and index 0 is returned; at global scope its name is added to the constant pool and that index returned |
| Compiler.Parser.ResolveLocal | src/compile.rs:754-768 | the innermost local with the name resolves to its slot; an uninitialized one is the own-initializer error; a name with no local gives none |
| Compiler.Parser.FindLocal | src/compile.rs:754-768 | the backwards search over the locals finds the innermost one with the name |
| Compiler.Parser.FindEnclosing | src/compile.rs:726-738 | the search over the enclosing functions finds the innermost one holding the name |
| Compiler.Parser.AddUpvalues | src/compile.rs:740-752 | capturing threads the upvalue through every function between the local's and the current one, as CompileScope.Capture says, and returns the current function's upvalue index |
| Compiler.Parser.ResolveUpvalue | src/compile.rs:726-738 | a name held by an enclosing function is captured from the innermost such function; a name held by none gives none and changes nothing |
| Compiler.Parser.Expression | src/compile.rs:713-715 | an expression consumes input, keeps the locals, and stops at a token that has no infix precedence and is not = |
| Compiler.Parser.ParsePrecedence | src/compile.rs:798-843 | parsing at a precedence stops at the first token whose precedence is lower, and leaves no = behind where assignment was allowed |
| Compiler.Parser.InfixLoop | src/compile.rs:798-843 | the infix loop runs until the current token's precedence is lower than the one asked for |
| Compiler.Parser.PrefixRule | src/compile.rs:798-843 | the prefix rule keeps the locals |
| Compiler.Parser.InfixRule | src/compile.rs:798-843 | the infix rule keeps the locals |
| Compiler.Parser.Grouping | src/compile.rs:644-647 | a grouping ends with the closing parenthesis |
| Compiler.Parser.NumberLiteral | src/compile.rs:334-337 | a number literal adds its decimal value to the constant pool and loads it when the index fits a byte |
| Compiler.Parser.StringLiteral | src/compile.rs:717-720 | a string literal adds its text without the quotes to the constant pool and loads it when the index fits a byte |
| Compiler.Parser.UnaryExpression | src/compile.rs:649-668 | - and ! compile their operand (a whole expression, as written) and end with OP_NEGATE or OP_NOT |
| Compiler.Parser.Binary | src/compile.rs:670-695 | a binary operator compiles its right operand one level tighter and ends with the operator's code |
| Compiler.Parser.EmitOperator | src/compile.rs:670-695 | a binary operator emits its code; any other token is the not-a-binary-operator error |
| Compiler.Parser.Literal | src/compile.rs:697-711 | false, nil and true emit their one opcode; any other token is the expect-expression error |
| Compiler.Parser.Variable | src/compile.rs:722-724 | a variable reference emits the access opcode that NamedVariable chooses |
| Compiler.Parser.VariableSlot | src/compile.rs:770-796 | the get and set opcodes are chosen local first, then upvalue, then global; only the constant pool and the capture bookkeeping change |
| Compiler.Parser.NamedVariable | src/compile.rs:770-796 | a name compiles to a local, upvalue or global access, chosen in that order, and to the set form exactly when assignment is allowed and = follows |
| Compiler.Parser.DotExpression | src/compile.rs:845-856 | a property access needs a name after the dot and ends with a get or set property instruction |
| Compiler.Parser.Property | src/compile.rs:845-856 | after the name, = (when allowed) compiles the value and a set, and otherwise a get, with the name's constant index as operand |
| Compiler.Parser.CallExpression | src/compile.rs:858-862 | a call ends with OP_CALL followed by the argument count, the number n of compiled arguments wrapped to a byte; n is 0 exactly when the list opens on the closing parenthesis |
| Compiler.Parser.ArgList | src/compile.rs:864-877 | an argument list ends with the closing parenthesis and returns the number n of compiled arguments wrapped to a byte; n is 0 exactly when the list opens on the closing parenthesis, and then nothing is emitted |
| Compiler.Parser.AndOperator | src/compile.rs:879-884 | and compiles to a jump-if-false over the right operand that lands at its end |
| Compiler.Parser.OrOperator | src/compile.rs:886-893 | or compiles to a conditional jump over an unconditional jump, which lands at the end of the right operand |
| Compiler.Parser.OrJumps | src/compile.rs:886-893 | the jumps of or: jump-if-false over the following jump, the jump, then a pop |
| Compiler.Parser.Declaration | src/compile.rs:358-368 | a declaration consumes input unless at the end, and keeps the enclosing functions and the scope depth |
| Compiler.Parser.KeywordDeclaration | src/compile.rs:358-368 | class, fun and var declarations keep the enclosing functions and the scope depth |
| Compiler.Parser.ClassDeclaration | src/compile.rs:370-378 | a class declaration ends with its closing brace |
| Compiler.Parser.FunDeclaration | src/compile.rs:380-385 | a function declaration keeps the enclosing functions and the scope depth |
| Compiler.Parser.EmitUpvalues | src/compile.rs:387-430 | the captured variables are emitted as their two-byte codes |
| Compiler.Parser.CompileFunction | src/compile.rs:387-430 | a function compiles to OP_CLOSURE and the constant index of a function named after its declaration, and the enclosing function gets its scope back |
| Compiler.Parser.EnterFunction | src/compile.rs:387-430 | entering a function saves the current chunk and scope and starts an empty chunk and a fresh scope at depth 1 |
| Compiler.Parser.LeaveFunction | src/compile.rs:387-430 | leaving a function restores the saved chunk and scope and returns the function's scope |
| Compiler.Parser.EmitClosure | src/compile.rs:387-430 | the function is added to the pool and, when it fits, OP_CLOSURE, its index and the upvalue codes are emitted |
| Compiler.Parser.Parameters | src/compile.rs:387-430 | each parameter becomes an initialized local and the arity is their count cast to u8 |
| Compiler.Parser.Parameter | src/compile.rs:387-430 | a parameter appends an initialized local |
| Compiler.Parser.FunctionBody | src/compile.rs:387-430 | a function body ends with the implicit return of nil |
| Compiler.Parser.VarDeclaration | src/compile.rs:432-441 | a declaration in a block adds an initialized local; at global scope it ends with OP_DEFINE_GLOBAL of the name's constant |
| Compiler.Parser.Initializer | src/compile.rs:432-441 | the initializer (or nil) keeps the locals |
| Compiler.Parser.Statement | src/compile.rs:530-547 | a statement consumes input unless at the end, and keeps the enclosing functions and the scope depth |
| Compiler.Parser.KeywordStatement | src/compile.rs:530-547 | print, if, return, while and block statements keep the enclosing functions and the scope depth |
| Compiler.Parser.ScopedBlock | src/compile.rs:530-547 | a block statement restores the scope depth around its block |
| Compiler.Parser.ReturnStatement | src/compile.rs:549-559 | return ends with OP_RETURN, and a bare return emits OP_NIL OP_RETURN |
| Compiler.Parser.IfStatement | src/compile.rs:561-580 | an if statement keeps the enclosing functions and the scope depth |
| Compiler.Parser.WhileStatement | src/compile.rs:608-620 | a while statement ends with a loop instruction that jumps back to the start of its condition |
| Compiler.Parser.CloseLoop | src/compile.rs:590-620 | closing a loop emits the loop instruction, patches the exit jump and emits the final pop, as LoopClosed says |
| Compiler.Parser.SkipIfFalse | src/compile.rs:561-580 | a conditional jump with a placeholder operand and a pop are emitted, and the placeholder's position returned |
| Compiler.Parser.Condition | src/compile.rs:561-620 | a parenthesised condition keeps the locals |
| Compiler.Parser.Block | src/compile.rs:622-628 | a block ends with its closing brace |
| Compiler.Parser.ExpressionStatement | src/compile.rs:630-635 | an expression statement ends with OP_POP |
| Compiler.Parser.PrintStatement | src/compile.rs:637-642 | a print statement ends with OP_PRINT |
| Compiler.Parser.Synchronize | src/compile.rs:929-948 | recovery stops at the end, after a semicolon, or before a keyword that starts a declaration or statement |
| Compiler.Parser.HandleResult | src/compile.rs:950-957 | a failed declaration marks the error, records it and synchronizes; success changes nothing |
| Compiler.Parser.Parse | src/compile.rs:959-980 | compilation yields the script function exactly when no error was recorded, and its code ends with the implicit return |
| Compiler.Compile | src/compile.rs:248-277 | compiling a source yields a script function of arity 0, no upvalues and an empty name exactly when no error occurred, and its code ends with the implicit return |
| Chunk.ToBytes | src/compile.rs:599-606 | a jump offset is written as exactly USIZE bytes |
| Chunk.FromBytes | src/vm.rs:517-521 | the offset read back from k bytes is below 256 to the power k |
| Chunk.FromToBytes | src/vm.rs:517-521 | reading back the bytes an offset was written as gives that offset, for every offset that fits |
| Chunk.ValueArray.constructor | src/chunk.rs:14-16 | a new value array is empty |
| Chunk.ValueArray.WriteValue | src/chunk.rs:18-20 | writing a value appends it |
| Chunk.ValueArray.GetValue | src/chunk.rs:22-24 | reading a position gives the value stored there |
| Chunk.Chunk.constructor | src/chunk.rs:33-39 | a new chunk has no code, no lines and no constants |
| Chunk.Chunk.WriteChunk | src/chunk.rs:40-43 | writing a byte appends it and its line, keeping one line per byte |
| Chunk.Chunk.Len | src/chunk.rs:47-49 | the length is the number of code bytes |
| Chunk.Chunk.AddConstant | src/chunk.rs:69-71 | adding a constant appends it and returns its index |
| Chunk.Chunk.ModifyChunk | src/compile.rs:599-606 | modifying a byte replaces that byte only and keeps the lines |
| Chunk.DisassembleInstruction | src/chunk.rs:58-83 | OP_RETURN is one byte and OP_CONSTANT two, when its operand names a constant; any other byte is the unknown-code panic with its line |
| Chunk.DisassembleChunk | src/chunk.rs:51-56 | the loop over the chunk computes the instruction-by-instruction disassembly |
| Chunk.TestChunkWrite | src/chunk.rs:97-103 | two writes give a chunk of length 2 |
| Chunk.TestChunkDisassemble | src/chunk.rs:104-114 | disassembling the chunk 0 1 0 2 panics with Unknown code on byte 2 at line 1 |
| Vm.Init | src/vm.rs:69-76 | a new machine has an empty stack, no frames, no globals and no captured slots |
| Vm.Push | src/vm.rs:86-88 | pushing appends the value to the stack and changes nothing else |
| Vm.Pop | src/vm.rs:90-92 | popping an empty stack fails; otherwise it removes and returns the top and changes nothing else |
| Vm.Peek | src/vm.rs:94-97 | peeking at a distance gives the value that far below the top, when there is one |
| Vm.PushPop | src/vm.rs:86-92 | popping right after pushing returns the value and the machine as it was |
| Vm.SetTop | src/vm.rs:510-514 | replacing the current frame keeps the number of frames |
| Vm.SetTopTwice | src/vm.rs:510-514 | replacing the current frame twice is replacing it once with the second frame |
| Vm.ReadByte | src/vm.rs:523-526 | reading a byte succeeds exactly inside the code, returns the byte at the ip and advances the ip by one |
| Vm.ReadJump | src/vm.rs:517-521 | reading a jump operand succeeds exactly when USIZE bytes remain, decodes them and advances the ip by USIZE |
| Vm.ReadConstant | src/vm.rs:528-530 | reading a constant succeeds exactly for an index inside the pool and returns that constant |
| Vm.ReadConstantOperand | src/vm.rs:164-168 | reading a constant operand keeps the current frame |
| Vm.Call | src/vm.rs:491-507 | a call fails with the expected-versus-given arity error exactly when the counts differ, and otherwise pushes a frame at ip 0 whose slot window starts at the callee |
| Vm.CallFrameLayout | src/vm.rs:491-507 | in the new frame, slot 0 holds the closure and the following slots are the arguments |
| Vm.CloseUpvaluesAsWritten | src/vm.rs:484-489 | as written, closing a slot stores the top of the stack into its cell |
| Vm.CloseUpvalues | src/vm.rs:484-489 | closing a slot stores that slot's value into its cell and forgets the slot; an uncaptured slot changes nothing |
| Vm.CloseTopAgrees | src/vm.rs:484-489 | for the top slot, the as-written and the corrected closing agree |
| Vm.CloseAsWrittenLosesValue | src/vm.rs:151-153 | as written, with 1 and 2 on the stack and slot 0 captured, the cell receives 2 instead of 1 |
| Vm.CloseRange | src/vm.rs:149-163 | closing the slots of a returning frame forgets exactly those captured slots and keeps the stack, frames, globals and the number of cells |
| Vm.IsFalsey | src/vm.rs:221-229 | nil and false are falsey; true and every value that is neither nil nor a boolean are truthy |
| Vm.ReturnOp | src/vm.rs:151-165 | a return from an inner frame continues with the frames below it and the same globals; the run ends exactly when the only frame returns, leaving no frames |
| Vm.NumberOp | src/vm.rs:203-240 | never ends the run, and an error leaves the machine as it was; on success both operands were numbers and are replaced by one result, nothing else changing; dividing by zero stops with the division-by-zero error; the result values are stated by VmProperties.NumberSemantics |
| Vm.AddOp | src/vm.rs:183-202 | never ends the run, and an error leaves the machine as it was; on success the operands were two numbers or two strings and are replaced by one result, nothing else changing |
| Vm.GlobalOp | src/vm.rs:247-301 | global operations keep the frames, cells and captures; define pops one value and only adds names, get pushes one value and keeps the globals, set keeps the stack and the set of names |
| Vm.LocalOp | src/vm.rs:302-309 | local operations keep the globals and the frames; get pushes one value on the unchanged stack, set keeps the height and the top |
| Vm.JumpOp | src/vm.rs:310-328 | jumps keep the stack and every frame below the current one |
| Vm.CallOp | src/vm.rs:329-353 | a call either pushes one frame over the unchanged stack, for a closure, or keeps the frames, adds one instance and keeps the stack height, for a class |
| Vm.PropertyOp | src/vm.rs:366-418 | both property operations keep the frames and globals; a read keeps the stack height and the instances, a write drops one value and keeps the number of instances |
| Vm.ClosureOp | src/vm.rs:419-449 | OP_CLOSURE pushes one closure over the unchanged stack, with one cell per upvalue its function declares |
| Vm.UpvalueOp | src/vm.rs:450-467 | upvalue operations keep the captures, the number of cells and the frames; a read pushes one value, a write keeps the height |
| Vm.StackOp | src/vm.rs:166-246 | constant, nil, true, false and class push one value over the unchanged stack; negate and not rewrite only the top; equal, print and pop drop one value, and print appends it to the output; globals, frames and captures are kept |
| Vm.Dispatch | src/vm.rs:150-479 | only a return ends the run, and then no frames remain; OP_CLOSE_UPVALUE pops the top slot and forgets its capture; an unknown opcode stops with the unknown-command error |
| Vm.Step | src/vm.rs:126-148 | with no frames the run is over; a step ends the run only when no frames are left; a stack over the limit at a fetch stops with a stack overflow |
| Vm.RunFor | src/vm.rs:126-482 | with no fuel the run is out of fuel; a finished run has no frames left |
| Vm.ReadPair | src/vm.rs:416-449 | reading the two bytes of a capture succeeds exactly when two bytes remain, returns them and advances past them |
| Vm.CaptureOne | src/vm.rs:416-449 | capturing one variable keeps the frames and the stack and only adds cells |
| Vm.CaptureUpvalues | src/vm.rs:416-449 | the capture loop yields one cell per upvalue byte pair and keeps the frames |
| Vm.Run | src/vm.rs:126-482 | the fetch-dispatch loop computes RunFor, the Step function iterated for the given fuel |
| Vm.Interpret | src/vm.rs:99-124 | interpreting pushes the script's closure, calls it with no arguments and runs; on a runtime error the stack is reset |
| VmProperties.StackOverflowStops | src/vm.rs:141-146 | a step with more values on the stack than the limit stops with a stack overflow |
| VmProperties.AddSemantics | src/vm.rs:180-202 | OP_ADD adds two numbers or concatenates two strings and otherwise stops with the operands-must-be-numbers error |
| VmProperties.NotSemantics | src/vm.rs:221-229 | OP_NOT replaces the top with whether it is falsey (nil or false) |
| VmProperties.JumpIfFalseSemantics | src/vm.rs:310-320 | OP_JUMP_IF_FALSE skips its operand and jumps by the offset when the top is falsey, leaving the top in place |
| VmProperties.DefineGlobalSemantics | src/vm.rs:247-260 | OP_DEFINE_GLOBAL pops the value and binds the named global to it |
| VmProperties.GetGlobalSemantics | src/vm.rs:261-279 | OP_GET_GLOBAL pushes the global's value, or stops with the undefined-variable error |
| VmProperties.SetGlobalSemantics | src/vm.rs:280-301 | OP_SET_GLOBAL overwrites a defined global with the top, keeping the top; an undefined one is an error and the globals are unchanged |
| VmProperties.NumberSemantics | src/vm.rs:203-240 | OP_SUBTRACT, OP_MULTIPLY, OP_DIVIDE, OP_GREATER and OP_LESS on numbers b, a replace them by b - a, b * a, b / a, b > a or b < a; dividing by zero stops; any other operands stop with the operands-must-be-numbers error, the stack kept |
| VmProperties.ConstantSemantics | src/vm.rs:166-170 | OP_CONSTANT pushes the constant its operand names and moves past the operand |
| VmProperties.LiteralSemantics | src/vm.rs:212-220 | OP_NIL, OP_TRUE and OP_FALSE push nil, true and false |
| VmProperties.NegateSemantics | src/vm.rs:171-182 | OP_NEGATE replaces a number on top by its negation, and otherwise stops with the operand-must-be-a-number error, the stack kept |
| VmProperties.EqualSemantics | src/vm.rs:230-234 | OP_EQUAL replaces the two top values by whether they compare equal |
| VmProperties.PrintPopSemantics | src/vm.rs:241-246 | OP_PRINT pops the top and appends it to the output; OP_POP only pops it |
| VmProperties.ClassSemantics | src/vm.rs:354-365 | OP_CLASS pushes a new class named by its string constant |
| VmProperties.LocalSemantics | src/vm.rs:302-309 | OP_GET_LOCAL pushes the value at slot + index, and OP_SET_LOCAL copies the top there, leaving the top in place |
| VmProperties.GetUpvalueSemantics | src/vm.rs:450-457 | OP_GET_UPVALUE pushes the value of the closure's cell: the stack slot an open cell names, or the value a closed cell holds |
| VmProperties.SetUpvalueSemantics | src/vm.rs:458-467 | OP_SET_UPVALUE writes the top into the closure's cell: into the stack slot an open cell names, or into a closed cell itself |
| VmProperties.GetPropertySemantics | src/vm.rs:366-394 | OP_GET_PROPERTY replaces the instance on top by the named field, and stops with the property-undefined error when the field is not set |
| VmProperties.SetPropertySemantics | src/vm.rs:395-418 | OP_SET_PROPERTY stores the top in the named field of the instance below it, and leaves the value in the instance's place |
| VmProperties.CallSemantics | src/vm.rs:329-353 | OP_CALL calls a closure callee through Vm.Call, turns a class callee into a fresh instance that replaces the top value, and stops with the not-callable error on anything else |
| VmProperties.ReturnSemantics | src/vm.rs:149-163 | OP_RETURN pops the frame, drops its slot window and pushes the result, and returning from the script ends the run; the returning frame's slots are no longer captured, and each captured one's cell is closed over the value in that slot |
| VmProperties.CaptureLocalRecords | src/vm.rs:416-449 | capturing a local records its stack address against its cell, reusing the cell when the slot is already captured |
| VmProperties.CaptureTurn | src/vm.rs:416-449 | one turn of the capture loop reads a byte pair, captures it and continues with one upvalue fewer |
| VmProperties.LocalTurn | src/vm.rs:416-449 | a turn that captures a local records the slot's address and then continues the loop |
| VmProperties.SameLocalSharesCell | src/vm.rs:416-449 | two captures of the same local share one cell, the one recorded for that slot |
| VmProperties.CaptureKeepsCellsWf | src/vm.rs:416-449 | capturing keeps every captured slot pointing at an existing cell of its own |
| VmProperties.CloseRangeKeepsCellsWf | src/vm.rs:149-163 | closing a frame's slots keeps every remaining capture pointing at an existing cell of its own |
| VmProperties.CloseRangeCloses | src/vm.rs:149-163 | closing a frame's slots closes each captured slot's cell over the value in that slot, and leaves every cell no closed slot names as it was |
| VmProperties.CloseUpvaluesKeepsCellsWf | src/vm.rs:484-489 | closing one slot keeps the captures well formed and every remaining capture on its cell |
| VmProperties.ReadConstantOperandKeeps | src/vm.rs:164-168 | reading a constant operand keeps the table of captured slots and only adds cells |
| VmProperties.ArithmeticOpsKeepCaptures | src/vm.rs:180-240 | the arithmetic and comparison operators keep the table of captured slots and only add cells |
| VmProperties.LocalOpsKeepCaptures | src/vm.rs:302-309 | local reads and writes keep the table of captured slots and only add cells |
| VmProperties.JumpOpsKeepCaptures | src/vm.rs:310-328 | jumps keep the table of captured slots and only add cells |
| VmProperties.CallOpKeepsCaptures | src/vm.rs:329-351 | a call keeps the table of captured slots and only adds cells |
| VmProperties.GlobalOpKeepsCaptures | src/vm.rs:247-301 | global operations keep the table of captured slots and only add cells |
| VmProperties.PropertyOpKeepsCaptures | src/vm.rs:364-415 | property operations keep the table of captured slots and only add cells |
| VmProperties.UpvalueOpKeepsCaptures | src/vm.rs:450-471 | upvalue reads and writes keep the table of captured slots and only add cells |
| VmProperties.ClosureOpKeepsCellsWf | src/vm.rs:416-449 | OP_CLOSURE keeps every capture pointing at an existing cell of its own |
| VmProperties.ReturnOpKeepsCellsWf | src/vm.rs:149-163 | OP_RETURN keeps every capture pointing at an existing cell of its own |
| VmProperties.ConstantLikeOpsKeepCaptures | src/vm.rs:164-363 | the remaining stack and constant operations keep the table of captured slots and only add cells |
| VmProperties.DispatchKeepsCellsWf | src/vm.rs:126-482 | every opcode keeps every capture pointing at an existing cell of its own |
| VmProperties.StepKeepsCellsWf | src/vm.rs:126-482 | every step keeps every capture pointing at an existing cell of its own |
| VmProperties.StepDispatches | src/vm.rs:126-148 | a step fetches the byte at the ip, advances past it and dispatches on it |
| VmProperties.JumpStep | src/vm.rs:310-328 | a step on a jump opcode runs the jump |
| VmProperties.JumpMoves | src/vm.rs:321-328 | OP_JUMP moves forward by its offset past the operand, and OP_LOOP back by it |
| VmProperties.JumpLandsAtPatchPoint | src/compile.rs:599-606 | a jump whose operand was patched to reach a code length lands exactly there |
| VmProperties.LoopReturnsToStart | src/compile.rs:590-597 | the loop instruction emitted for a loop start lands exactly at that start |
| VmProperties.EndOfCodeSpins | src/vm.rs:126-148 | a frame whose ip runs past its code never makes progress: the run only ends by running out of fuel |

## Left out

- Console output is left out; `print` has no observable effect in the model. This covers `println!`, `eprintln!`, the `DEBUG` and `BACKTRACE` tracing, and the printing done by disassembly.
- `src/main.rs` (command line, files, exit codes) and the message formatting of `src/error.rs` are left out; errors are datatypes carrying a line and a reason.
- Numbers are Dafny reals rather than IEEE-754 doubles. `parse::<f64>` is the exact decimal value of the lexeme.
- Token.Display: the text of a number is a parameter, the output of Rust's `{}` formatting of the `f64`, because the model's reals carry no float formatting. Likewise the name shown for a function or class is a parameter, the unwrapped lexeme of its name token.
- The atomic `COUNTER` of `src/parser.rs` is a fresh-id argument threaded through the parse functions, so no concurrency is modelled.
- `HashMap`s are Dafny maps. `Rc` and `RefCell` sharing is modelled by indices: cells in the VM, and environments, functions, classes and instances in the tree-walker heap. No garbage collection is modelled.
- Stmts.Define, Stmts.Assign: environments are values in a sequence, not shared mutable objects, so the model does not capture in-place update through an alias.
- Resolution.ResolveStmt: the resolver state is a value threaded through functions, and the `Resolver` methods compute those functions on values rather than mutating shared fields.
- The bytecode VM has no bound methods, superclass dispatch, methods on classes or native functions, because the code does not have them.
- Interpreter.Exec: `var x;` without an initializer binds nil. The source binds `Rc::new(0)`, an integer that no other part of the interpreter reads as a Lox value.
- Interpreter.Eval: evaluation takes a fuel bound and reports exhaustion when it runs out; programs that do not terminate are not otherwise modelled.
- Interpreter.Eval, Interpreter.Exec, Interpreter.CallValue, Interpreter.ExecWhile, Interpreter.Iterate, Interpreter.Interpret, Interpreter.ExecBody, Interpreter.CallFunction, Interpreter.ExecClass: their own contracts state only that a finished run grows the heap (and, for some, keeps the scopes well nested). The semantics of each construct are stated by the lemmas listed above, among them Interpreter.WhileUnrolls, Interpreter.ReturnEndsBody, Interpreter.ParamsBound and Interpreter.DefineClass.
- Vm.Run: the run loop takes a fuel bound.
- Vm.Step: the per-opcode functions state the shape of the machine after each opcode (stack height, frames, globals, captures); the values each opcode computes are stated by the `VmProperties` lemmas named after the opcodes, from AddSemantics to CallSemantics.
- Scanner.ScanTokens: requires that the input not end in a blank. The source's `chars().nth(pos).expect` panics on most such inputs, but the requires also excludes some that the source handles: a trailing comment such as `x // c ` (the comment case jumps to the end) and an unterminated string such as `"ab ` (the string case returns its error).
- Lexer.Scan: requires that the source not end in `/` or `.`. Otherwise the look-ahead `source[pos + 1]` reads past the end. This excludes slightly more than the inputs that panic. Scan also runs the corrected comment and string loops, which test for the end before looking ahead; as written those loops read past the end at an unterminated comment or string (Lexer.CommentEndAsWritten, Lexer.StringEndAsWritten).
- Lexer.SkipSpace: skips a comment with the corrected loop Lexer.CommentEnd, which stops at the end of the input; the as-written loop is Lexer.CommentEndAsWritten, and Lexer.CommentAsWrittenPanics and Lexer.TrailingCommentPanics show where the source reads past the end.
- Lexer.ScanAt: scans a string with the corrected loop Lexer.StringEnd and reports an unterminated string; the as-written loop is Lexer.StringEndAsWritten, and Lexer.StringAsWrittenPanics shows where the source reads past the end.
- Lexer.StringToken: states the corrected string loop; as written the source reads past the end of an unterminated string instead of reporting it (Lexer.StringEndAsWritten, Lexer.StringAsWrittenPanics).
- Lexer.Scanner.SkipComment: runs the corrected comment loop, testing for the end before looking ahead; the as-written partner is Lexer.CommentEndAsWritten (Lexer.CommentAsWrittenPanics, Lexer.TrailingCommentPanics).
- Lexer.Scanner.SkipWhitespace: computes Lexer.SkipSpace, and so the corrected comment loop; the as-written partner is Lexer.CommentEndAsWritten (Lexer.TrailingCommentPanics).
- Lexer.Scanner.ScanString: runs the corrected string loop, reporting an unterminated string at the end of the input; the as-written partner is Lexer.StringEndAsWritten (Lexer.StringAsWrittenPanics).
- Lexer.Scanner.ScanToken: computes Lexer.Scan, and so the corrected comment and string loops; the as-written partners are Lexer.CommentEndAsWritten and Lexer.StringEndAsWritten.
- Lexer.Scanner.ScanLexeme: computes Lexer.ScanAt, and so the corrected string loop; the as-written partner is Lexer.StringEndAsWritten (Lexer.StringAsWrittenPanics).
- Grammar.Expression: requires a token list that ends with `Eof` and whose number and string tokens carry their value, as the scanner produces.
- Chunk.Chunk.constructor: vector capacities are not modelled.
- Casts to `u8` are modelled explicitly by `CompileScope.Truncate` where a count can exceed 255 (parameters, locals, upvalue indices).
- Compiler.Parser.ArgList: the argument counter `cnt += 1` on a `u8` wraps to 0 after 255, as in a release build; a debug build panics on that overflow instead. Compiler.Parser.CallExpression emits the wrapped count.
- The stack limit `16 * 256` is `Vm.StackMax`.
- Vm.NumberOp: division by a zero number stops with the division-by-zero error. The source divides `f64` values and yields an infinity or NaN, which Dafny reals cannot represent.
- Vm.CloseRange: computes the corrected closing, in which each cell is closed over the value in its own slot. The as-written closing over the top of the stack is Vm.CloseUpvaluesAsWritten, and Vm.CloseAsWrittenLosesValue shows where the two differ.
- Vm.Run: iterates Vm.Step, whose return uses the corrected closing Vm.CloseRange; the as-written partner is Vm.CloseUpvaluesAsWritten (Vm.CloseAsWrittenLosesValue).
- Vm.Interpret: runs Vm.Run, and so the corrected closing of cells on return; the as-written partner is Vm.CloseUpvaluesAsWritten (Vm.CloseAsWrittenLosesValue).
- VmProperties.ReturnSemantics: states the corrected closing, in which each cell receives its own slot's value; as written, every cell receives the top of the stack (Vm.CloseAsWrittenLosesValue).
- Grammar.FinishCall: uses the corrected argument cap and accepts a 255th argument, which the source refuses; the as-written loop is Grammar.ArgumentsAsWritten, and Grammar.ArgumentLimit shows the difference.
- TreeParser.Parser.FinishCall: computes Grammar.FinishCall, with the corrected argument cap; the as-written partner is Grammar.ArgumentsAsWritten (Grammar.ArgumentLimit).
- TreeParser.Parser.Arguments: computes Grammar.Arguments, with the corrected argument cap; the as-written partner is Grammar.ArgumentsAsWritten (Grammar.ArgumentLimit).
- StmtGrammar.Synchronize: uses the corrected recovery, which passes over `for` where the source stops at it; the as-written partner is StmtGrammar.SynchronizeAsWritten, and StmtGrammar.ForNeverFinishes shows the difference.
- StmtGrammar.ParseFrom: runs the corrected StmtGrammar.Synchronize, so a program whose recovery reaches `for` finishes, where the source loops forever; the as-written loop is StmtGrammar.ParseFromAsWritten, and StmtGrammar.ForNeverFinishes shows the difference.
- StmtGrammar.Parse: runs StmtGrammar.ParseFrom, with the corrected recovery; the as-written partner is StmtGrammar.SynchronizeAsWritten (StmtGrammar.ForNeverFinishes).
- TreeParser.Parser.Synchronize: computes StmtGrammar.Synchronize, with the corrected recovery; the as-written partner is StmtGrammar.SynchronizeAsWritten (StmtGrammar.ForNeverFinishes).
- TreeParser.Parser.Parse: computes StmtGrammar.ParseFrom, with the corrected recovery; the as-written partner is StmtGrammar.SynchronizeAsWritten (StmtGrammar.ForNeverFinishes).
- Callable.Bind: uses the corrected binding, which gives each binding its own copy of the class scope holding `this`; the as-written partner is Callable.BindAsWritten, and Callable.BindAsWrittenSharesThis shows the difference. Interpreter.BindMethod, Interpreter.PropertyFromChain and Interpreter.SuperMethod use it.
- Interpreter.BindMethod: binds through the corrected Callable.Bind, so each bound method gets its own copy of the class scope; the source shares one scope, as Callable.BindAsWrittenSharesThis shows.
- Interpreter.PropertyFromChain: a method found on the class chain is bound through the corrected Callable.Bind, with the same difference from the source as Interpreter.BindMethod.
- Interpreter.SuperMethod: binds through the corrected Callable.Bind, like Interpreter.BindMethod. A `super` that is bound to something other than a class, or a `this` that is not an instance, gives the runtime failure; the source panics there, at the `expect("Lox Class")` of src/interpreter.rs:363 and the `expect("Lox Instance")` of :376. The model's runs have no panic outcome.
- Interpreter.ExecClass: a superclass expression whose evaluation fails gives the runtime failure. The source panics there, at the `expect("Non empty")` of src/interpreter.rs:59-62. An example is `class B < A {}` with `A` undeclared: the resolver records no depth for `A`, so the lookup at src/interpreter.rs:415 gives nothing. The model's runs have no panic outcome.
- Executor.ExecuteClass: computes Interpreter.ExecClass, so a failing superclass expression is the runtime failure where the source panics, as on the Interpreter.ExecClass line.
- Interpreter.Exec: a token whose lexeme is absent gives a failure where the source panics, at the `lexeme.unwrap()` calls of src/interpreter.rs:108, :130 and :177. The model reads every name through Token.Name, which cannot tell an absent lexeme from one that is not a string.
- Interpreter.ClassMethods: a method whose name token has no lexeme ends the class with a failure, where the `unwrap()` at src/interpreter.rs:86 panics.
- Interpreter.Eval: a variable, assignment, property or `super` token with an absent lexeme gives a failure, where the `unwrap()` calls at src/interpreter.rs:276, :380, :413 and :428 panic.
- Input is ASCII. The byte-length versus character-index mix of `src/compile.rs:80-84` and `src/scanner.rs` is not modelled.

## Findings

| source | as written | input that shows it | evidently intended | confidence | as-written member | corrected member |
|---|---|---|---|---|---|---|
| src/callable.rs:40-46 | `bind` defines `this` in the method's own closure environment, shared by every binding of that method | bind one method to instance a and then to instance b; the first bound method now sees b as `this` | each binding gets its own copy of the closure environment with `this` added, enclosed by the same parent, so the resolver's depths still hold | not executed | Callable.BindAsWrittenSharesThis | Callable.BindKeepsThis |
| src/parser.rs:545-565 | the argument count is checked after the push, against 255, so a call with 255 arguments is refused | `f(a1, ..., a255)`, which gets the error that there are more than 255 arguments | refuse only more than 255 arguments, as the message says and as parameters do | not executed | Grammar.ArgumentLimit | Grammar.Arguments |
| src/compile.rs:206-209 | the comment loop reads `peek()` before testing `is_at_end()` | `1; // one` with no final newline indexes past the end of the source | stop the comment at the end of the input | not executed | Lexer.TrailingCommentPanics | Lexer.CommentEnd |
| src/compile.rs:143-160 | the string loop reads `peek()` before testing `is_at_end()` | `"abc` indexes past the end instead of reporting an unterminated string | report "Unterminated string." at the end of the input | not executed | Lexer.StringAsWrittenPanics | Lexer.StringEnd |
| src/parser.rs:668-688 | `synchronize` stops at `for`, which no declaration parser consumes, so `declaration` fails again at the same token | `for (;;) {}` makes `parser` loop forever | recovery passes over `for`, so that the parse ends and reports the failure | not executed | StmtGrammar.ForNeverFinishes | StmtGrammar.ForIsReported |
| src/vm.rs:484-489 | `close_upvalues(slot)` closes the cell over `peek(0)`, the top of the stack, rather than over the slot | on return, with stack [1, 2] and slot 0 captured, the cell receives 2 | close each cell over the value in its own slot | not executed | Vm.CloseAsWrittenLosesValue | Vm.CloseUpvalues |
