# Lox: the TypeScript interpreter and the Rust scanner, modelled in Dafny

This project models two implementations of Lox, the small dynamically typed
scripting language of *Crafting Interpreters*, extended with `break`,
`continue`, `%` and `div`. The scanner, the syntax tree, the printer and
the evaluator also support the comma operator and the conditional `?:`,
but the parser never reaches them: `expression` goes straight to
`assignment`, nothing calls `ternary`, and only `ternary` calls
`comma`. So a parsed program never contains either form, and
`a ? b : c` is a syntax error.

The first is the TypeScript tree-walking interpreter, in five parts:

- the scanner (`scanner.ts`);
- the recursive-descent parser (`parser.ts`);
- the static resolver, which records each variable's scope distance (`resolver.ts`);
- the evaluator (`interpreter.ts`), with its environments, functions, classes and instances;
- the debugging AST printer.

The second is the start of a Rust bytecode port: its scanner (`scaner.rs`),
the chunk that holds bytecode (`chunk.rs`), and the loop in `compiler.rs`
that pulls tokens from the scanner.

Everything is a pure function over immutable data. A few parser routines
are methods with loops; they are still pure, and read no mutable state.

- **Text and tokens.** Source text is a `string`; the Rust scanner works
  on bytes (`seq<Byte>`). A token is a datatype.
- **Parser state and errors.** Each parser function returns either a
  value or a thrown parse error, together with the new cursor, the loop
  nesting level and the reported diagnostics.
- **The heap.** The JavaScript object graph becomes a heap: a sequence of
  frames (environments) and a sequence of objects (functions, classes,
  instances), indexed by `nat`. Lox identity (`===`) is then equality of
  indices. A frame only encloses older frames, and a class's superclass is
  always an older class, so every walk along a chain terminates.
- **Evaluation.** The evaluator is fuel-bounded and takes a context and a
  state. Its result is an `Outcome`:
  - a value or a statement completion;
  - one of the signals `break`, `continue` or `return`;
  - a Lox runtime error;
  - `Fault`, where the TypeScript code would leave the Lox value domain
    (a JavaScript `TypeError` or a stray `undefined`);
  - `OutOfFuel`.
- **Every step of the evaluator** keeps the state valid and restores the
  current environment. The heap only evolves: frames keep their enclosing
  link, and instances keep their class. Output is only appended to.
- **Numbers** are exact reals (`real`). JavaScript's truncating `%` and
  `Math.trunc` are written out for them.

Where the code departs from what it evidently means to do, the model keeps
both readings behind a flag (`Reading = AsWritten | Intended`). The as-written
reading is proved to misbehave on a concrete input; the intended reading is
proved to behave (see "Findings").

Three behaviours of the code worth knowing:

- **break and continue can escape a function.** `LoxFunction.call`
  catches only the return exception, so a `break` or `continue` that
  reaches a function body's top level escapes the call
  (`Semantics.BreakEscapesCall`).
- **No resolver check for loops.** The resolver does not check where
  `break` and `continue` appear. Only the parser's loop nesting level
  rejects them, and as written it counts an `if` as a loop and a `for`
  as none.
- **`continue` in a `for` skips the increment.** `for` becomes a `while`
  whose body is the block `{ body; increment; }`, so a `continue` leaves
  that block before the increment runs (`Semantics.ContinueSkipsIncrement`).

## Model

| member | source | states |
|---|---|---|
| Lexer.Keyword | ts/src/scanner.ts:21-40 | a word the keyword table accepts maps to a keyword kind spelled by exactly that word; with `Lexer.KeywordOfSpelling` the table is exactly the nineteen reserved words |
| Lexer.KeywordOfSpelling | ts/src/scanner.ts:21-40 | every keyword kind, `continue`, `break` and `div` included, is found from its own spelling |
| Lexer.Single | ts/src/scanner.ts:127-143 | a single-character token kind is produced only by the character that spells it |
| Lexer.Comparison | ts/src/scanner.ts:139-142 | `!`, `=`, `<`, `>` give the token spelled by that character, followed by `=` exactly when one was matched |
| Lexer.DigitsEnd | ts/src/scanner.ts:106-112 | the digit loop stops at the first non-digit or the end, and everything it passed is a digit |
| Lexer.ParseNatText | ts/src/scanner.ts:114 | `parseFloat` of the decimal text of a natural number yields that number |
| Lexer.StringEnd | ts/src/scanner.ts:76-80 | the string loop stops at the first quote or the end, and the line count grows by the newlines passed |
| Lexer.LineCommentEnd | ts/src/scanner.ts:145-146 | a line comment runs up to, not including, the next newline or the end |
| Lexer.IdentifierEnd | ts/src/scanner.ts:117-118 | the identifier loop consumes exactly the maximal run of letters, digits and `_` |
| Lexer.CommentCloses | ts/src/scanner.ts:147-153 | after a comment body free of `/` and `*` closed by `*/`, the intended scan ends just after `*/`, the code as written one character further |
| Lexer.BlockComment | ts/src/scanner.ts:147-153 | the intended nested-comment loop ends right after a `*/` whenever it ends before the end of the text |
| Lexer.ScanSlash | ts/src/scanner.ts:144-157 | `//` and `/*` add nothing; any other `/` adds exactly the slash token `/` at the current line; no diagnostic either way; a line comment passes only non-newlines up to the next newline or the end |
| Lexer.ScanString | ts/src/scanner.ts:76-90 | with no closing quote ahead: no token, the scanner at the end, and exactly the diagnostic "Unterminated string" at the line reached; otherwise no diagnostic and exactly one string token, whose text is the quoted run and whose value is the text between the quotes |
| Lexer.ScanNumber | ts/src/scanner.ts:106-115 | exactly one number token, no diagnostic, ending where `Lexer.NumberEnd` stops; its text is digits with an optional fraction and its value the number that text reads as |
| Lexer.NumberEnd | ts/src/scanner.ts:106-112 | the number loop stops after a number text, before any further digit, and, when it took no fraction, before any dot followed by a digit |
| Lexer.ScanIdentifier | ts/src/scanner.ts:117-122 | exactly one token, no diagnostic, ending before the next non-alphanumeric character; an identifier that is not a keyword, or the keyword kind its text spells |
| Lexer.ScanToken | ts/src/scanner.ts:124-177 | a token is added exactly when the character begins a lexeme that is neither a comment nor an unterminated string; a diagnostic is added exactly for an unexpected character (`unexpected character 'c'` at the current line) and an unterminated string; a step adding neither, outside a block comment, passed one blank or one line comment; the line grows by the newlines passed |
| Lexer.ScanFrom | ts/src/scanner.ts:179-184 | the loop reaches the end; the tokens it adds are well formed and not end of file, their texts are a subsequence of the rest of the source, and, without block comments or diagnostics, the rest of the source is exactly their texts with blanks and line comments between them |
| Lexer.ScanTokens | ts/src/scanner.ts:179-189 | exactly one end-of-file token, at the end; all tokens well formed; their texts a subsequence of the source; without block comments the final line is the newline count, and when besides nothing was reported the source is exactly the token texts with blanks and line comments between them |
| Lexer.CommentSwallowsNextCharacter | ts/src/scanner.ts:147-153 | as written, `/**/x` scans to the end-of-file token alone: the `x` is consumed by the comment |
| Lexer.CommentIntendedKeepsNextCharacter | ts/src/scanner.ts:147-153 | in the intended reading `/**/x` scans to the identifier `x` and end of file |
| Parsing.Advance | ts/src/parser.ts:327-330 | the cursor moves one token unless it is at the end-of-file token |
| Parsing.Match | ts/src/parser.ts:332-341 | a token is consumed exactly when it is not the end and its kind is among those asked for |
| Parsing.Consume | ts/src/parser.ts:370-373 | success exactly when the current token has the kind; otherwise the error is reported at the current token and thrown |
| Parsing.Expression | ts/src/parser.ts:56-58 | a parsed expression consumed at least one token, is well nested and binds at assignment level or tighter; a thrown error was reported; the loop level is unchanged |
| Parsing.Assignment | ts/src/parser.ts:266-284 | the same guarantees as `expression`: consumed tokens, well nested at assignment level or tighter, thrown errors reported |
| Parsing.AssignTo | ts/src/parser.ts:269-281 | a variable target gives `Assign`, a property target gives `Set`, any other target is reported (not thrown) and the left side is kept |
| Parsing.BinaryLevel | ts/src/parser.ts:449-496 | each binary level yields a well-nested tree binding at least as tightly as the level; well nesting puts a strictly tighter operand on the right, so chains nest to the left |
| Parsing.BinaryLoop | ts/src/parser.ts:286-308 | the operator loop keeps the tree well nested and at the level, whatever the number of operators |
| Parsing.Unary | ts/src/parser.ts:406-414 | a well-nested expression at unary level or tighter |
| Parsing.CallExpr | ts/src/parser.ts:432-447 | a well-nested expression at call level or tighter: calls and property accesses only ever apply to call-level operands |
| Parsing.FinishCall | ts/src/parser.ts:416-430 | on success a well-nested `Call` node, the cursor past its `)`, every argument at assignment level or tighter |
| Parsing.Primary | ts/src/parser.ts:375-404 | a well-nested primary-level node; a thrown error was reported |
| Parsing.Atom | ts/src/parser.ts:376-395 | exactly the one-token primaries yield an expression, and literals carry `false`, `true`, `nil` or the token's value |
| Parsing.SuperAccess | ts/src/parser.ts:384-389 | `super . name` yields a `Super` node whose keyword is the `super` token |
| Parsing.Group | ts/src/parser.ts:397-401 | a parenthesized expression yields a `Grouping` |
| Parsing.CommaExpr | ts/src/parser.ts:32-41 | a well-nested expression at the loosest level; a thrown error was reported (only the unreachable `ternary` calls `comma`, so this is unreachable from `parse`) |
| Parsing.TernaryExpr | ts/src/parser.ts:43-54 | a well-nested expression at the loosest level; a thrown error was reported (no parser function calls `ternary`, so this is unreachable from `parse`) |
| Statements.VariableAlone | ts/src/parser.ts:266-496 | an identifier followed by `)` passes through every precedence level unchanged and parses as the variable alone |
| Statements.Declaration | ts/src/parser.ts:60-70 | a declaration moves forward; on success it obeys the loop rule in its context; a failure adds a diagnostic and stops at a synchronisation point |
| Statements.Synchronize | ts/src/parser.ts:343-363 | skips at least one token and stops just after a `;`, before a statement keyword, or at the end, passing no earlier such point |
| Statements.ClassHeader | ts/src/parser.ts:73-81 | the class name, an optional superclass exactly when `<` follows it, then `{` |
| Statements.ClassDeclaration | ts/src/parser.ts:72-91 | a `Class` named by the token after the keyword, ending at `}`, whose methods obey the loop rule in the declaration's context |
| Statements.FunctionSignature | ts/src/parser.ts:93-108 | the name is the first token and an identifier, the parameters are identifiers, and the signature ends at `{` |
| Statements.ParameterList | ts/src/parser.ts:96-106 | the parameters are identifiers and the list ends at `)`; none when `)` directly follows `(` |
| Statements.Function | ts/src/parser.ts:93-111 | a function named by its first token, whose body obeys the loop rule in the declaration's context |
| Statements.BlockBody | ts/src/parser.ts:252-264 | declarations up to `}` that obey the loop rule in the block's context |
| Statements.Statement | ts/src/parser.ts:113-137 | `break` and `continue` are accepted exactly when the loop level is positive and `;` follows; any statement obeys the loop rule in its context |
| Statements.Jump | ts/src/parser.ts:121-134 | a jump is accepted exactly at a positive loop level with a `;` after it; otherwise the error is thrown, reported at the keyword |
| Statements.Condition | ts/src/parser.ts:185-187 | a well-nested condition ending at `)`; `( a )` yields the variable `a` |
| Statements.IfStatement | ts/src/parser.ts:182-198 | `if (a) break;` is accepted exactly when the level at which the branch is parsed is positive: as written the `if` itself raises it |
| Statements.WhileStatement | ts/src/parser.ts:233-244 | a `While` that obeys the loop rule; a clean parse leaves the loop level as it found it |
| Statements.ForHeader | ts/src/parser.ts:140-161 | the three clauses up to `)`, each well nested; `( ; ; )` has none |
| Statements.ForInitializer | ts/src/parser.ts:142-149 | nothing after a bare `;`, else a well-formed variable declaration or expression statement ending in `;` |
| Statements.OptionalClause | ts/src/parser.ts:151-161 | a clause is absent when its closing token comes first; otherwise it is well nested and the closing token follows it |
| Statements.ForStatement | ts/src/parser.ts:139-180 | a parsed `for` is the desugaring of some well-nested clauses and body: a `while` on the condition (or the literal `true`) whose body is the loop body followed by the increment, in a block after the initializer when there is one; `for (;;) break;` is accepted exactly when the level at which the body is parsed is positive: as written `for` does not raise it |
| Statements.ForShaped | ts/src/parser.ts:165-177 | the desugared `while` obeys the loop rule: the body and increment sit inside the loop |
| Statements.PrintStatement | ts/src/parser.ts:200-204 | a `Print` of a well-nested expression, ending in `;` |
| Statements.ReturnStatement | ts/src/parser.ts:206-215 | a `Return` keyed by the `return` token, with no value when `;` follows |
| Statements.VarDeclaration | ts/src/parser.ts:217-231 | a `Var` named by the identifier, with a well-nested initializer; an identifier not followed by `=` throws "No initializer" |
| Statements.ExpressionStatement | ts/src/parser.ts:246-250 | an `Expression` statement of a well-nested expression, ending in `;` |
| Statements.Parse | ts/src/parser.ts:19-30 | every `break` and `continue` lies inside a `while` in the intended reading; as written that holds when nothing was reported, with `if` counted as a loop |
| Resolution.Declare | ts/src/resolver.ts:121-128 | at top level nothing; otherwise the name is marked unready in the innermost scope, reported if already there |
| Resolution.Define | ts/src/resolver.ts:130-133 | the name is marked ready in the innermost scope only |
| Resolution.FindScope | ts/src/resolver.ts:136-141 | the innermost scope at or below `top` holding the name, with no holder above it |
| Resolution.ResolveLocal | ts/src/resolver.ts:135-142 | a name held by some scope gets a distance below the number of scopes; a name held by none is left to the globals |
| Resolution.ResolveLocalInnermost | ts/src/resolver.ts:135-142 | the recorded distance counts the scopes from the innermost one to the nearest scope holding the name |
| Resolution.ResolveExpr | ts/src/resolver.ts:188-282 | resolving an expression changes only the resolution table (which only gains entries) and the error list (which only grows) |
| Resolution.ResolveVariable | ts/src/resolver.ts:262-269 | reading a name declared but not yet defined in the innermost scope is reported |
| Resolution.ResolveThis | ts/src/resolver.ts:247-255 | `this` outside a class is reported and left unresolved; inside one it is resolved like a variable |
| Resolution.ResolveSuper | ts/src/resolver.ts:236-245 | `super` outside a class, or in a class without a superclass, is reported with the matching message; it is resolved as a variable either way |
| Resolution.ResolveStmt | ts/src/resolver.ts:82-90 | a statement leaves the outer scopes and the context flags as they were; only the innermost scope gains names, and the table and errors only grow |
| Resolution.ResolveReturn | ts/src/resolver.ts:165-177 | `return` outside a function is reported; a value returned from an initializer is reported; otherwise the value is resolved |
| Resolution.ResolveFunction | ts/src/resolver.ts:96-111 | parameters and body share a new scope that is gone afterwards: the scopes and context flags are as before, and only the table and errors grow |
| Resolution.DeclareParams | ts/src/resolver.ts:102-105 | every parameter ends up defined in the innermost scope |
| Resolution.ResolveClass | ts/src/resolver.ts:37-74 | the class scopes are gone afterwards and the context flags are restored; only the innermost scope gains names, and the table and errors only grow |
| Resolution.ResolveBlock | ts/src/resolver.ts:31-35 | after a block the scope stack is exactly as before it, and nothing outside the resolution table and the errors changed |
| Resolution.RedeclarationReported | ts/src/resolver.ts:121-128 | two `var`s of one name in a local scope report "Already a variable with this name in this scope." at the second |
| Resolution.OwnInitializerReported | ts/src/resolver.ts:262-265 | `var a = a;` in a local scope reports "Can't read local variable in its own initializer." |
| Resolution.LocalResolvesToOwnScope | ts/src/resolver.ts:135-142 | a variable declared and then read in one block resolves to distance 0 |
| Resolution.RecursiveLocalFunction | ts/src/resolver.ts:148-153 | a local function is declared and defined before its body is resolved, so `fun f() { f(); }` in a block resolves the inner `f` to the block, one scope out, and reports nothing |
| Resolution.TopLevelReturnReported | ts/src/resolver.ts:165-168 | `return;` at top level reports exactly "Can't return from top-level code." |
| Resolution.TopLevelThisReported | ts/src/resolver.ts:247-251 | `this` at top level is reported and gets no distance |
| Resolution.SelfInheritanceReported | ts/src/resolver.ts:44-46 | a class whose superclass has its own name gets "A class can't inherit" reported at the superclass name |
| Resolution.MethodThisDistance | ts/src/resolver.ts:58-67 | `this` in a method body resolves to distance 1: the method scope, then the `this` scope |
| Resolution.MethodSuperDistance | ts/src/resolver.ts:53-67 | `super` in a subclass method body resolves to distance 2, past the method and `this` scopes |
| Environments.Ancestor | ts/src/environment.ts:26-33 | following `d` enclosing links reaches a live frame `d` levels nearer the outermost one, never a newer frame |
| Environments.Define | ts/src/environment.ts:13-15 | the name is bound in this frame only, overwriting; every other binding and frame is unchanged |
| Environments.GetAt | ts/src/environment.ts:17-20 | a value exactly when the frame `d` links up binds the name, and it is that frame's binding |
| Environments.AssignAt | ts/src/environment.ts:22-24 | writes the binding in the frame `d` links up and nowhere else |
| Environments.Get | ts/src/environment.ts:35-43 | a live value, or the error "undefined variable '…'." for the name |
| Environments.Assign | ts/src/environment.ts:45-57 | a heap where only bindings may change, or the error "Undefined variable '…'." for the name |
| Environments.GetFindsInnermost | ts/src/environment.ts:35-43 | `get` succeeds exactly when some frame on the chain binds the name, and reads the nearest such frame |
| Environments.AssignIsAssignAtInnermost | ts/src/environment.ts:45-57 | `assign` fails exactly when `get` fails, and otherwise is `assignAt` at the distance of the nearest binding |
| Environments.AssignKeepsNames | ts/src/environment.ts:45-57 | `assign` never creates a binding: every frame keeps its set of names |
| Environments.GetReadsOlderFrames | ts/src/environment.ts:35-43 | `get` from a frame depends only on that frame and older ones |
| Environments.DefineThenGet | ts/src/environment.ts:13-43 | after `define(name, v)`, `get(name)` yields `v`, and `get` of any other name is unaffected |
| Environments.AssignAtThenGetAt | ts/src/environment.ts:17-24 | `assignAt(d, name, v)` then `getAt(d, name)` yields `v` |
| Environments.GetAtIgnoresCloserFrames | ts/src/environment.ts:17-33 | a binding of the same name in a closer frame does not change `getAt` at a positive distance |
| Environments.AncestorAdd | ts/src/environment.ts:26-33 | following `a` links and then `b` more is following `a + b` |
| Callables.CallableKinds | ts/src/lox_callable.ts:11-16 | nil, booleans, numbers, strings and instances are not callable; functions and classes are |
| Callables.FindMethod | ts/src/lox_class.ts:19-29 | a class's own method wins; any method found is a live function |
| Callables.FindMethodNearest | ts/src/lox_class.ts:19-29 | a method is found exactly when some class on the superclass chain declares it, and it is the nearest such declaration |
| Callables.ClassArityInherited | ts/src/lox_class.ts:45-49 | a class takes the arguments of its own `init`; without one, exactly those of its superclass; with neither, none |
| Callables.Bind | ts/src/lox_function.ts:21-25 | the same declaration and initializer flag, closing over a new frame that binds only `this` and encloses the old closure |
| Callables.BindScopes | ts/src/lox_function.ts:21-25 | the bound function reads `this` at distance 0 and sees the old closure one link up |
| Callables.InstanceGet | ts/src/lox_instance.ts:19-28 | a field wins over a method; with no field, the result fails exactly when the class chain has no method, with "Undefined property '…'." |
| Callables.InstanceGetBindsMethod | ts/src/lox_instance.ts:19-28 | a method found through `get` is a new function object with the declaration `findMethod` finds, closing over a frame that binds only `this` to the instance |
| Callables.InstanceSet | ts/src/lox_instance.ts:30-32 | the field is written on this instance only, with no check against methods; the class is kept |
| Callables.SetThenGet | ts/src/lox_instance.ts:19-32 | `set(name, v)` then `get(name)` yields `v`, whatever methods the class has |
| Callables.InstanceText | ts/src/lox_instance.ts:14-16 | an instance prints as the printed form of its class followed by " instance" |
| Values.TruthyCases | ts/src/interpreter.ts:18-22 | exactly `nil` and `false` are falsy |
| Values.IsEqualIsIdentity | ts/src/interpreter.ts:24-29 | Lox equality is symmetric, coincides with equality of values (heap objects by identity), and never equates a number with a non-number |
| Values.Stringify | ts/src/interpreter.ts:31-43 | "nil", the string itself, "true"/"false", and integral numbers as their decimal digits without a fractional part |
| Values.StringifyIntegral | ts/src/interpreter.ts:34-39 | an integral number prints as digits that read back as the number |
| Values.Trunc | ts/src/interpreter.ts:363 | `Math.trunc` rounds toward zero |
| Values.JsRemProperties | ts/src/interpreter.ts:357 | `%` is what truncating division leaves: the sign of the dividend and a magnitude below the divisor's |
| Values.UnaryTwice | ts/src/interpreter.ts:151-163 | `!` never fails, and applied twice gives the operand's truthiness; `-` fails exactly on non-numbers, and applied twice to a number gives it back |
| Values.BinaryOp | ts/src/interpreter.ts:324-380 | every error names the operator token, and no operator yields a heap object |
| Values.BinaryOpErrors | ts/src/interpreter.ts:324-380 | arithmetic and comparison fail exactly on non-numbers, and `/`, `div` and `%` also on a zero divisor, with their messages; `+` fails exactly on mixed operands; `==` and `!=` are value equality; other operators give nil |
| Values.DivAndRemAgree | ts/src/interpreter.ts:352-363 | `a == b * (a div b) + a % b` for every non-zero `b`, and `div` yields an integer |
| Values.PlusCases | ts/src/interpreter.ts:344-351 | `+` concatenates two strings and adds two numbers |
| Common.DigitsValueOfNatToString | ts/src/interpreter.ts:34-39 | the decimal rendering of a natural number reads back as that number |
| Interpreter.LookUpVariable | ts/src/interpreter.ts:315-322 | an unresolved name reads the globals by `get`; a resolved one is found exactly when its frame at that distance binds it; a failure is "undefined variable '…'." |
| Interpreter.AssignVariable | ts/src/interpreter.ts:298-309 | the assigned value is the result; an unresolved name fails exactly when the globals lack it, with "Undefined variable '…'."; output is unchanged |
| Interpreter.Evaluate | ts/src/interpreter.ts:165-167 | evaluation keeps the state valid, restores the environment, only evolves the heap, only appends output, and yields a value or an abrupt outcome |
| Interpreter.EvalAssign | ts/src/interpreter.ts:298-309 | a completed assignment yields the value of its right-hand side |
| Interpreter.EvalUnary | ts/src/interpreter.ts:151-163 | the step invariant of `evaluate`; its value is stated in `Semantics.DoubleNegation` |
| Interpreter.EvalBinary | ts/src/interpreter.ts:324-380 | the step invariant of `evaluate`; its value is stated in `Semantics.BinaryOfLiterals` |
| Interpreter.EvalLogical | ts/src/interpreter.ts:95-105 | the step invariant of `evaluate`; short-circuiting is stated in `Semantics.LogicalTruthiness` |
| Interpreter.EvalComma | ts/src/interpreter.ts:78-81 | the step invariant of `evaluate`; its value is stated in `Semantics.CommaDiscardsLeft` |
| Interpreter.EvalTernary | ts/src/interpreter.ts:83-89 | the step invariant of `evaluate`; the branch chosen is stated in `Semantics.TernarySelects` |
| Interpreter.EvalGet | ts/src/interpreter.ts:402-409 | an object that is not an instance fails with "Only instances have properties."; on an instance the result is the instance's `get`: its value and heap, or its "Undefined property" error |
| Interpreter.EvalSet | ts/src/interpreter.ts:107-117 | an object that is not an instance fails with "Only instances have fields." before the value is evaluated; on an instance an abrupt value propagates, and otherwise the field is set by the instance's `set` and the value is the result |
| Interpreter.EvalSuper | ts/src/interpreter.ts:119-131 | a method missing from the superclass chain is "Undefined property '…'."; otherwise the result is a new function object; output and environment are unchanged |
| Interpreter.EvalCall | ts/src/interpreter.ts:382-400 | the step invariant of `evaluate`; the checks on the callee are stated in `Interpreter.CallValue` |
| Interpreter.EvalArgs | ts/src/interpreter.ts:385-388 | either one live value per argument or the first abrupt outcome, never a return signal; the step invariant holds |
| Interpreter.CallValue | ts/src/interpreter.ts:390-399 | a non-callable fails with "Can only call functions and classes.", a wrong argument count with "Expected n arguments but got m." |
| Interpreter.CallClass | ts/src/lox_class.ts:35-43 | a completed call yields a new instance of the class; with no `init` that is the whole effect and nothing is printed |
| Interpreter.BindingsLastWins | ts/src/lox_function.ts:28-31 | each parameter is bound to the argument at its position unless a later parameter has the same name |
| Interpreter.CallFunction | ts/src/lox_function.ts:27-45 | a completed initializer call yields the `this` bound in its closure |
| Interpreter.InitializerResult | ts/src/lox_function.ts:37-43 | a value exactly when the closure binds `this`, and it is that binding |
| Interpreter.Execute | ts/src/interpreter.ts:169-171 | a statement keeps the step invariant and completes or is abrupt, never yielding a bare value |
| Interpreter.ExecVar | ts/src/interpreter.ts:265-273 | on completion the current frame binds the name to the initializer's value |
| Interpreter.ExecReturn | ts/src/interpreter.ts:257-263 | a return never completes; a missing value returns nil and changes nothing |
| Interpreter.ExecFunc | ts/src/interpreter.ts:235-239 | the current frame binds the name to a new function closing over the current frame |
| Interpreter.ExecBlock | ts/src/interpreter.ts:227-229 | the step invariant: the enclosing environment is restored after the block; `Semantics.BlockScopeIsLocal` states that its variables stay local |
| Interpreter.ExecSeq | ts/src/interpreter.ts:177-193 | the step invariant; an empty list completes with the last result so far |
| Interpreter.ExecIf | ts/src/interpreter.ts:241-248 | an `if` completes with no result value; the branch chosen is stated in `Semantics.IfSelects` |
| Interpreter.WhileLoop | ts/src/interpreter.ts:275-288 | a loop completes with no result value and keeps the step invariant across iterations |
| Interpreter.MethodTable | ts/src/interpreter.ts:211-215 | one function per method name, closing over the class scope, an initializer exactly when named `init` |
| Interpreter.ExecClass | ts/src/interpreter.ts:195-225 | a completed class statement yields nil |
| Interpreter.DeclareClass | ts/src/interpreter.ts:204-224 | the name is bound in the current frame to a new class with that name and superclass; nothing is printed |
| Interpreter.ClassObject | ts/src/interpreter.ts:206-217 | a new class object with the statement's name and superclass; with a superclass its methods close over one new frame binding `super`, otherwise over the current frame, which is left untouched |
| Interpreter.Interpret | ts/src/interpreter.ts:411-423 | the state stays valid, the environment is restored, the heap only evolves, output only grows, and the last value is live |
| Semantics.LogicalTruthiness | ts/src/interpreter.ts:95-105 | a deciding left operand is the result, with the right never evaluated; otherwise `or` is truthy exactly when one operand is, `and` exactly when both are |
| Semantics.LogicalIsConditional | ts/src/interpreter.ts:95-105 | with a literal `l`, `l or e` evaluates as `l ? l : e` and `l and e` as `l ? e : l` |
| Semantics.TernarySelects | ts/src/interpreter.ts:83-89 | a literal condition selects the branch by its truthiness (the evaluator's behaviour on a tree the parser never builds) |
| Semantics.CommaDiscardsLeft | ts/src/interpreter.ts:78-81 | a comma expression with an effect-free left side is its right side (the evaluator's behaviour on a tree the parser never builds) |
| Semantics.DoubleNegation | ts/src/interpreter.ts:151-163 | `!!e` is the truthiness of `e` as a boolean |
| Semantics.BinaryOfLiterals | ts/src/interpreter.ts:324-380 | a binary expression over two literals is the operator table applied to their values, with no state change |
| Semantics.FalseLoopDoesNothing | ts/src/interpreter.ts:275-288 | a loop with a falsy literal condition runs no iteration and changes nothing |
| Semantics.IfSelects | ts/src/interpreter.ts:241-248 | a literal condition runs exactly the branch its truthiness selects, nothing for a missing `else`; abrupt outcomes pass through and a completed branch leaves no value |
| Semantics.IfSelectsBranch | ts/src/interpreter.ts:241-248 | for any condition: an abrupt condition is the outcome; otherwise exactly the selected branch runs in the state the condition left, nothing for a missing `else`, and a completed branch leaves no value |
| Semantics.BreakEndsLoop | ts/src/interpreter.ts:275-292 | `while (true) break;` completes after one iteration, changing nothing |
| Semantics.ContinueLoopsForever | ts/src/interpreter.ts:275-296 | `while (true) continue;` never completes, whatever the fuel |
| Semantics.ContinueSkipsIncrement | ts/src/parser.ts:165-167 | in the block `for` builds, `continue` leaves before the increment: nothing is printed or changed |
| Semantics.BlockScopeIsLocal | ts/src/interpreter.ts:177-193 | a variable declared in a block leaves the enclosing frame exactly as before |
| Semantics.VarThenRead | ts/src/interpreter.ts:265-273 | a global declared with `var` reads back as its initial value |
| Semantics.PrintLiteral | ts/src/interpreter.ts:251-255 | `print` of a literal appends its text to the output and changes nothing else |
| Semantics.ReturnYieldsValue | ts/src/lox_function.ts:33-39 | a function whose body returns a literal yields that literal's value |
| Semantics.EmptyBodyYieldsNil | ts/src/lox_function.ts:43-44 | a non-initializer that falls off its end yields nil |
| Semantics.BreakEscapesCall | ts/src/lox_function.ts:33-41 | a `break` at a function body's top level escapes the call as a break signal |
| AstPrinter.LiteralText | ts/src/ast_printer.ts:32-35 | only a string literal can render as empty text |
| AstPrinter.Parenthesize | ts/src/ast_printer.ts:7-17 | `(`, then the name, and `)` last |
| AstPrinter.Print | ts/src/ast_printer.ts:19-47 | a rendering exactly for the nodes the printer has a visitor for; every non-literal renders as a parenthesized form |
| AstPrinter.PrintBalanced | ts/src/ast_printer.ts:7-47 | the rendering is an S-expression: its parentheses are balanced |
| AstPrinter.PrintIgnoresIds | ts/src/ast_printer.ts:19-47 | two trees that differ only in node ids render identically |
| AstPrinter.SampleExpression | ts/src/ast_printer.ts:51-61 | the sample `-123 * (45.67)` renders as `(* (- 123) (group 45.67))` |
| Chunks.NewChunk | lox-rs/src/chunk.rs:15-21 | an empty chunk whose code and lines are aligned |
| Chunks.Write | lox-rs/src/chunk.rs:23-26 | appends the instruction and its line at the same index, keeping everything before it |
| Chunks.WriteAllLines | lox-rs/src/chunk.rs:23-26 | after any sequence of writes each instruction sits at the same index as its line |
| Chunks.AddConstant | lox-rs/src/chunk.rs:28-31 | the value is appended; while fewer than 256 constants were held, the returned index names it |
| Chunks.ConstantIndexWraps | lox-rs/src/chunk.rs:28-31 | the 257th constant is handed index 0, which names a different value |
| Chunks.AddConstantChecked | lox-rs/src/chunk.rs:28-31 | an index is handed out exactly when it fits in a byte, and it always names the value just added |
| Chunks.SampleChunk | lox-rs/src/main.rs:8-11 | the driver's chunk holds `Constant(0)` and `Return` on line 123, constant 0 being 1.2 |
| RustScanner.PeekNextAhead | lox-rs/src/scaner.rs:241-264 | where `peek_next` does not panic it is `peek` one byte further on, NUL past the end; the intended `peek_next` never panics |
| RustScanner.PeekNext | lox-rs/src/scaner.rs:241-246 | as written it panics exactly on the last byte; otherwise the next byte, or NUL past the end |
| RustScanner.MatchesPeek | lox-rs/src/scaner.rs:248-264 | `matches` consumes one byte exactly when the scanner is not at the end and `peek` shows the character asked for; otherwise the scanner is unchanged |
| RustScanner.SkipWhitespace | lox-rs/src/scaner.rs:214-239 | only moves forward, counts the newlines passed, and stops at a byte that is not whitespace and does not open a comment; only the code as written can panic |
| RustScanner.SkipWhitespaceBlank | lox-rs/src/scaner.rs:214-239 | everything `skip_whitespace` passes over is spaces, carriage returns, tabs, newlines and line comments, each comment running to the next newline or the end |
| RustScanner.LineEnd | lox-rs/src/scaner.rs:227-229 | a line comment runs up to the next newline or the end |
| RustScanner.WordEnd | lox-rs/src/scaner.rs:136-138 | the identifier loop consumes the maximal run of letters, digits and `_` |
| RustScanner.DigitsEnd | lox-rs/src/scaner.rs:188-190 | the digit loop consumes the maximal run of digits |
| RustScanner.StringEnd | lox-rs/src/scaner.rs:201-206 | the string loop stops at the next quote or the end, counting newlines |
| RustScanner.CheckKeyword | lox-rs/src/scaner.rs:176-185 | the result is the keyword asked for or an identifier; only the code as written can panic |
| RustScanner.WordKind | lox-rs/src/scaner.rs:144-174 | the trie yields an identifier or keyword kind; only the code as written can panic |
| RustScanner.IntendedKeywords | lox-rs/src/scaner.rs:144-185 | in the intended reading the trie yields exactly the keyword the word spells, or an identifier |
| RustScanner.CheckKeywordIntended | lox-rs/src/scaner.rs:176-185 | the intended comparison takes the word's own bytes: the keyword exactly when the word spells it |
| RustScanner.ScanWordOk | lox-rs/src/scaner.rs:135-142 | an identifier-kind token on character boundaries; in the intended reading its kind is the keyword its text spells, or identifier |
| RustScanner.ScanNumberOk | lox-rs/src/scaner.rs:187-198 | a non-empty token on character boundaries whose text is digits with an optional dot-and-digits fraction |
| RustScanner.ScanNumber | lox-rs/src/scaner.rs:187-198 | the token is a number; only the code as written panics |
| RustScanner.ScanStringOk | lox-rs/src/scaner.rs:200-212 | a string token spanning its quotes, on character boundaries, with the newlines inside it counted; or the error "Unterminated string." when the source ends first |
| RustScanner.ScanLexemeOk | lox-rs/src/scaner.rs:81-132 | the token begun at `start` is end of file exactly at the end of the source, and otherwise non-empty, on character boundaries and shaped for its kind |
| RustScanner.ScanToken | lox-rs/src/scaner.rs:73-133 | only the code as written panics: the intended scanner always yields a token |
| RustScanner.ScanTokenOk | lox-rs/src/scaner.rs:73-133 | moves forward, only over blanks and line comments before the token's start, counts the newlines passed, gives end of file exactly at the end, and otherwise a non-empty token on character boundaries shaped for its kind |
| RustScanner.ScanTokenAfterBlank | lox-rs/src/scaner.rs:73-80 | between where `scan_token` is called and where its token starts lie only blanks and line comments |
| RustScanner.ScanFrom | lox-rs/src/compiler.rs:6-18 | the tokens up to the first end-of-file token, which is the empty slice at the end: their slices lie in source order without overlap, only blanks and line comments lie before the first slice and between adjacent slices, and their lines never decrease; only the code as written panics |
| RustScanner.ScanAll | lox-rs/src/compiler.rs:3-19 | a fresh scanner's stream from line 1; without error tokens its slices, with the blanks and line comments between them, cover the whole source |
| RustScanner.KeywordAfterStart | lox-rs/src/scaner.rs:176-185 | as written, the `and` of `x and` scans as an identifier |
| RustScanner.KeywordAfterStartIntended | lox-rs/src/scaner.rs:176-185 | the intended scanner reads the `and` of `x and` as the keyword |
| RustScanner.KeywordSliceSplitsCharacter | lox-rs/src/scaner.rs:181 | as written, scanning `and` after `é` slices inside `é` and panics |
| RustScanner.KeywordSliceIntended | lox-rs/src/scaner.rs:176-185 | the intended scanner reads the `and` of `é and` as the keyword |
| RustScanner.AccentAndFromStart | lox-rs/src/scaner.rs:176-185 | from a fresh scanner, the whole compile loop on `é and` as written ends in the character-boundary panic (after an unexpected-character token for each byte of `é`, by `RustScanner.AccentByte`); the intended scan of the same source succeeds |
| RustScanner.TrailingDotPanics | lox-rs/src/scaner.rs:241-246 | as written, `1.` panics looking past the dot; intended, it is the number `1` |
| RustScanner.TrailingSlashPanics | lox-rs/src/scaner.rs:241-246 | as written, a lone `/` panics looking past it; intended, it is a slash token |

## Left out

- The native functions `clock`, `read_line` and `parse_num` (ts/src/interpreter.ts:50-76) read the clock and standard input, so they are not modelled. The globals frame starts empty.
- Numbers are exact reals, not IEEE doubles. Rounding, `NaN`, infinities and JavaScript's exponent notation in `toString` are not modelled. `Stringify` pins down integral numbers only; other numbers get a decimal rendering with at most 16 fraction digits, which is not JavaScript's shortest round-trip form.
- Evaluation runs on fuel. Running out is the `OutOfFuel` outcome. No lemma shows that more fuel never changes a finished result; the host's stack depth is not modelled either.
- Output is the sequence of printed lines. The console, `printSync` and the driver in `main.ts` and `utils.ts` (file and prompt modes, exit codes) are not modelled; nor is the compile loop's printing in `compiler.rs`, beyond the token stream it prints.
- The reporting of diagnostics is a list of `Diag` values; `had_error` and the order of output on the console are not modelled.
- No lemma proves that the resolver's distances agree with the interpreter's frames for whole programs. The interpreter takes the resolver's table as a parameter, and a distance past the outermost frame is `Fault`.
- Interpreter.EvalSuper: a method whose `this` is missing (JavaScript would bind `undefined`) is `Fault`, not a bound function.
- Interpreter.EvalUnary: states only the step invariant every evaluation keeps; `Semantics.DoubleNegation` states `!!e` for every operand, and a single `!` or `-` is stated only through the operator table `Values.UnaryOp`.
- Interpreter.EvalBinary: states only the step invariant; its value is stated for literal operands by `Semantics.BinaryOfLiterals`.
- Interpreter.EvalLogical: states only the step invariant; short-circuiting is stated separately by `Semantics.LogicalTruthiness`.
- The comma and conditional forms are modelled in the parser (`Parsing.CommaExpr`, `Parsing.TernaryExpr`) and in the evaluator, as the code has them, but no lemma connects them to `Statements.Parse`, because the program as written never parses them.
- Interpreter.EvalComma: states only the step invariant; its value is stated for a literal left side by `Semantics.CommaDiscardsLeft`.
- Interpreter.EvalTernary: states only the step invariant; the branch chosen is stated for a literal condition by `Semantics.TernarySelects`.
- Interpreter.EvalCall: states only the step invariant; the callee checks are on `Interpreter.CallValue`.
- Interpreter.ExecSeq: states the step invariant and the empty case, not the order of execution for longer lists.
- Resolution.ResolveExpr: states which parts of the resolver state may change, not the distances it records; those are stated on concrete programs by the lemmas that follow it in the table.
- Resolution.ResolveStmt: states which parts of the resolver state may change; the diagnostics and distances are stated on concrete programs.
- Resolution.ResolveFunction: states which parts of the resolver state may change; the distances inside a method body are stated by `Resolution.MethodThisDistance` and `Resolution.MethodSuperDistance`.
- Resolution.ResolveClass: states which parts of the resolver state may change; its diagnostics and distances are stated by `Resolution.SelfInheritanceReported` and the method distance lemmas.
- Values.BinaryOp: its own contract says only where errors point; `Values.BinaryOpErrors` and `Values.PlusCases` state the operator table.
- Interpreter.CallFunction: states the initializer case and the step invariant. `Semantics.ReturnYieldsValue`, `Semantics.EmptyBodyYieldsNil` and `Semantics.BreakEscapesCall` cover the other exits on concrete bodies, not on every body.
- Interpreter.ExecIf: states the step invariant and that a completed `if` leaves no value; the branch chosen is stated for every condition by `Semantics.IfSelectsBranch`.
- Interpreter.WhileLoop: states the step invariant and that a completed loop leaves no value; `break`, `continue` and a false condition are stated on concrete loops by the `Semantics` lemmas.
- Interpreter.ExecBlock: states the step invariant; that a block's variables stay local is stated for one declaration by `Semantics.BlockScopeIsLocal`.
- Interpreter.Interpret: states the invariant, not which statement stopped the run.
- Lexer.ScanTokens: the end-of-file token's line (counted from 0, as the scanner does) is stated to equal the number of newlines only for sources without block comments, and the source is stated to be exactly the token texts with blanks and line comments between them only when, besides, nothing was reported; with block comments or diagnostics only the token list's shape and the subsequence are stated.
- Lexer.ScanFrom: like `Lexer.ScanTokens`, covers the rest of the source with token texts and gaps only without block comments and diagnostics, since a block comment and an unexpected character are text no token and no gap accounts for.
- Source text is a sequence of code points. The TypeScript scanner indexes UTF-16 code units, so a character outside the Basic Multilingual Plane is one character here (for instance on `Lexer.ScanToken`'s unexpected-character branch) but two there; surrogate pairs are not modelled.
- RustScanner.SkipWhitespace: its own contract states where skipping stops and the lines it counts; that it passes over nothing but blanks and line comments is stated by `RustScanner.SkipWhitespaceBlank`.
- RustScanner.ScanFrom: what lies under an error token (an unexpected character, or an unterminated string up to the end) is not stated; the blanks-only coverage is stated between slices that follow each other in the stream.
- RustScanner.ScanAll: covers the source only across slices that follow each other, as `RustScanner.ScanFrom` does; error tokens carry a message, not a slice.
- The Rust line counter is a `u16`; the model counts lines with unbounded naturals, so wrap-around past 65535 lines is not modelled.
- `vm.rs`, `debug.rs` and `value.rs` of the Rust port are not part of this model. `value.rs` is only the number type, modelled as `real`.
- `tool/generate_ast.ts`, and the generated `Expr.ts` and `Stmt.ts`, are represented by the `Ast` datatypes. `Stmt.ts` as shipped lacks the class node that the parser, resolver and interpreter use; the model includes it.
- Expression identity: the resolver's table is keyed by JavaScript object identity; the model gives each expression node a numeric id from the parser.

## Findings

| source | as written | input that shows it | evidently intended | confidence | as-written member | corrected member |
|---|---|---|---|---|---|---|
| ts/src/scanner.ts:147-153 | after the `*/` that ends a block comment the loop still calls `advance`, consuming one more character | `/**/x` scans to end of file alone; `x` is lost | the comment ends right after `*/` and `x` is an identifier | high, not executed | Lexer.CommentSwallowsNextCharacter | Lexer.CommentIntendedKeepsNextCharacter |
| ts/src/parser.ts:182-244 | `ifStatement` raises the loop level and `forStatement` does not; a thrown error skips the decrement | `if (a) break;` outside any loop is accepted; `for (;;) break;` is rejected | `while` and `for` raise the level, `if` does not, and the level is restored on error | high, not executed | Statements.IfStatement | Statements.Parse |
| lox-rs/src/scaner.rs:176-185 | `check_keyword` compares `src[start..]` from the start of the source, not from the token's start | `x and` scans `and` as an identifier; `é and` panics slicing inside `é` | compare from `self.start + start` | high, not executed | RustScanner.KeywordSliceSplitsCharacter | RustScanner.KeywordSliceIntended |
| lox-rs/src/scaner.rs:241-246 | `peek_next` only guards against being at the end, then indexes `current + 1` | `1.` or a lone `/` at the end of the source indexes past the end and panics | return NUL when `current + 1` is at or past the end | high, not executed | RustScanner.TrailingDotPanics | RustScanner.ScanToken |
| lox-rs/src/chunk.rs:28-31 | the index of a new constant is cast to `u8`, keeping its low eight bits | the 257th constant gets index 0, which names the first constant | refuse or widen once 256 constants are held | high, not executed | Chunks.ConstantIndexWraps | Chunks.AddConstantChecked |
