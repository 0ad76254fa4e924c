# A verified model of The3gs/Compiler

The3gs/Compiler is a toy compiler for a language whose only values are `u32` words. A
program is a list of `fn` declarations. The pipeline has five stages:

1. **Lexer** (`get_tokens`): turns the source text into tokens.
2. **Parser**: recursive descent over a two-token lookahead buffer (`Peekable2`). It builds
   declarations, statements (`let`, `return`, expression statements) and arithmetic
   expressions with calls.
3. **Type checker**: checks every body against a name-to-type environment.
4. **Compiler**: lowers each function body to operations of a stack virtual machine. While
   it does so it tracks the words the machine will hold, in a list of slots (`local_vars`).
5. **Virtual machine**: runs the operations. Its state is a function id, a program counter,
   an operand stack and a bump heap.

The model follows the source file by file.

- **`Base`**: `u32` words and Rust's wrapping, truncating and dividing operators on them.
- **`Ast`**: the syntax tree.
- **`Machine`** and **`MachineProperties`**:
  - The machine is a pure step function `Next`, plus a class `VirtualMachine` whose methods
    `Step` and `Run` update the fields in place and are proved against `Next`.
  - Every operation's effect on the stack, the heap and the cursor is a lemma.
  - **`StraightLine`** and **`FibonacciTest`** run whole programs, including the source's own
    Fibonacci test for every input.
- **`Compiler`**: the lowering as pure functions. The methods `CompileExpression`,
  `CompileStatement` and `Compile` mutate the operation list and the slot list the way the
  source does.
- **`CompilerProperties`**: the slot bookkeeping against the net stack effect of the emitted
  code.
- **`CompilerCorrectness`** and **`CompiledRuns`**:
  - Compiled call-free functions compute what a reference interpreter computes.
  - The documented `add` example runs to completion.
- **`CompilerFindings`**: the `let` lowering as written and as intended.
- **`TypeChecker`** and **`TypeCheckerProperties`**: the checker as an imperative loop over
  maps, proved equal to a functional checker. That checker is proved to decide a declarative
  typing relation.
- **`Lookahead`**: the `Peekable2` class.
- **`Lexer`** and **`LexerProperties`**: the lexer's loops, proved against a function `Lex`,
  and what each kind of lexeme yields.
- **`Parser`**: each `parse_*` routine as a method over a `Peekable2`, proved against a pure
  `Parsed…` function.
- **`ParserProperties`**: printing then parsing gives the syntax back. Also precedence,
  associativity and the statement-terminator rules.
- **`SourceProperties`**: the lexer and the parser together. A program written out as text
  parses back to itself.

A Rust panic (`unwrap` on `None`, an index out of range, a division by zero, a lexer
`panic!`) is a precondition of the method that models the code. In the specification
functions it is a `None` result.

## Model

| member | source | states |
|---|---|---|
| Base.Truncate | src/virtual_machine.rs:128 | `n as u32` keeps `n` when it fits and is congruent to `n` modulo 2^32 |
| Base.WrappingAdd | src/virtual_machine.rs:152-160 | `wrapping_add` is the sum when it fits, otherwise the sum minus 2^32 |
| Base.WrappingSub | src/virtual_machine.rs:161-173 | `wrapping_sub` is the difference when `b <= a`, otherwise the difference plus 2^32 |
| Base.WrappingMul | src/virtual_machine.rs:174-182 | `wrapping_mul` is the product when it fits and is congruent to it modulo 2^32 |
| Base.Quotient | src/virtual_machine.rs:191-195 | unsigned `/` is the truncating quotient: `q*b <= a < q*b + b` |
| Base.Remainder | src/virtual_machine.rs:204-208 | unsigned `%` is below the divisor and is what the quotient leaves |
| Base.WrappingSubAddOne | src/virtual_machine.rs:209-211 | storing `loc - 1` (wrapping) and then adding 1 (wrapping) gives `loc` back, even for 0 |
| Base.FirstIndex | src/compiler.rs:123 | `position` finds the first occurrence of an element, and `None` exactly when it is absent |
| Machine.MainIndex | src/virtual_machine.rs:81 | the machine starts in the first function named `main`, or in function 0 when none is |
| Machine.VirtualMachine.FromFunctions | src/virtual_machine.rs:80-89 | the table is kept; the machine starts in main at pc 0 with stack `[0, 0, u32::MAX]` and an empty heap |
| Machine.VirtualMachine.Step | src/virtual_machine.rs:96-241 | one loop iteration updates the fields exactly as the step function `Next` says |
| Machine.VirtualMachine.ExecuteStackOperation | src/virtual_machine.rs:110-122 | `Push`, `Pop`, `Get` and `Put` change the state as `Execute` says |
| Machine.VirtualMachine.ExecuteHeapOperation | src/virtual_machine.rs:123-134 | `Store`, `Load`, `Allocate` and `Free` change the state as `Execute` says |
| Machine.VirtualMachine.ExecuteCallOperation | src/virtual_machine.rs:135-151 | `Call`, `CallFnPointer` and `Return` change the state as `Execute` says |
| Machine.VirtualMachine.ExecuteArithmetic | src/virtual_machine.rs:152-208 | the arithmetic operations change the state as `Execute` says |
| Machine.VirtualMachine.ExecuteControlFlow | src/virtual_machine.rs:209-237 | the jumps and gotos change the state as `Execute` says |
| Machine.VirtualMachine.Run | src/virtual_machine.rs:91-245 | `fuel` iterations of `run` reach `Exec`'s state; once halted, the result is the top of the stack, or `u32::MAX` if the stack is empty |
| MachineProperties.GetCopiesWordAtDepth | src/virtual_machine.rs:114-117 | `Get(d)` pushes the word at depth `d`; the length grows by one and every old word stays |
| MachineProperties.PutOverwritesWordAtDepth | src/virtual_machine.rs:118-122 | `Put(d)` pops `v` and writes it at depth `d` of the shortened stack; no other word changes |
| MachineProperties.PopDiscardsTop | src/virtual_machine.rs:111-113 | `Pop` drops the top word, and does nothing on an empty stack |
| MachineProperties.BinaryArithmeticEffect | src/virtual_machine.rs:156-208 | a two-operand instruction replaces `a` (below) and `b` (top) by one result; the words under them stay |
| MachineProperties.ArithmeticWraps | src/virtual_machine.rs:156-182 | `Add`, `Sub` and `Mul` give the mathematical result modulo 2^32 |
| MachineProperties.ArithmeticDivides | src/virtual_machine.rs:191-208 | `Div` and `Mod` truncate, and give 0 for a zero divisor |
| MachineProperties.ImmediateForms | src/virtual_machine.rs:152-202 | `SubImmediateBy` equals `SubImmediate`; `DivImmediateBy` tests `b` but divides by `i`, so it faults exactly when `i = 0` and `b != 0`; `ModImmediateBy` computes `i % b`; a zero divisor gives 0 |
| MachineProperties.CallThenReturn | src/virtual_machine.rs:135-151 | `Call` saves pc and id (id on top) and enters the callee at 0; the matching `Return` resumes after the call with the caller's id |
| MachineProperties.CallFnPointerIsCall | src/virtual_machine.rs:141-147 | `CallFnPointer` pops the callee and then acts as `Call` |
| MachineProperties.JumpLandsOnTarget | src/virtual_machine.rs:209-221 | a taken jump makes `loc` the next instruction; a conditional jump pops its condition either way |
| MachineProperties.GotoLandsOnTarget | src/virtual_machine.rs:222-237 | the gotos pop the target, then the condition, and otherwise act as the jumps |
| MachineProperties.AllocateTwice | src/virtual_machine.rs:127-130 | `Allocate(m)` then `Allocate(k)` push `h` and `h+m` and extend the heap with zeros |
| MachineProperties.StoreThenLoad | src/virtual_machine.rs:123-126 | a store then a load at one address gives the stack back; the heap holds the word there and is unchanged elsewhere |
| MachineProperties.FreeKeepsHeap | src/virtual_machine.rs:131-134 | `Free` pops one word and leaves the heap alone |
| MachineProperties.ExecCompose | src/virtual_machine.rs:91-242 | `m` iterations followed by `n` more are `m + n` iterations |
| MachineProperties.HaltedIsFinal | src/virtual_machine.rs:92 | once the id is `u32::MAX`, the loop does nothing more |
| StraightLine.RunsStraight | src/virtual_machine.rs:109-122 | a block of pushes, pops, gets, puts and arithmetic takes one iteration per instruction, with the stack its stack function gives |
| FibonacciTest.FibonacciProgramComputesFib | src/virtual_machine.rs:252-290 | the hand-written loop halts after `10i + 9` iterations with exit code `fib(i)`, for every `i` |
| Compiler.SizeOf | src/compiler.rs:43-48 | every type occupies one word |
| Compiler.VariableDepth | src/compiler.rs:130-142 | the depth is the distance to the nearest slot with that name; otherwise the argument's position from the end plus the slot count plus 2; `None` (a panic) exactly when neither exists |
| Compiler.DeclarationNames | src/compiler.rs:6-11 | the function names, one per declaration, in order |
| Compiler.CompileExpression | src/compiler.rs:104-237 | appends the code `LowerExpression` gives and leaves the slot list it gives |
| Compiler.CompileBinary | src/compiler.rs:146-235 | the left operand's code, the right operand's, the instruction, then one slot popped |
| Compiler.CompileStatement | src/compiler.rs:50-102 | appends the code `LowerStatement` gives and leaves its slot list |
| Compiler.CompileFunction | src/compiler.rs:21-35 | a body lowered statement by statement from an empty slot list |
| Compiler.Compile | src/compiler.rs:3-41 | a fresh machine over one compiled function per declaration, in order, in its initial state |
| CompilerProperties.StackEffectAppend | src/compiler.rs:104-237 | the net stack effect of concatenated code is the sum of the parts' effects |
| CompilerProperties.ExpressionSlots | src/compiler.rs:104-237 | when every call passes an argument, an expression appends as many unnamed slots as words its code leaves; the slots below are untouched |
| CompilerProperties.BinarySlots | src/compiler.rs:146-235 | a binary expression's slot change is the net effect of left, right and the instruction |
| CompilerProperties.ArgumentsSlots | src/compiler.rs:112-121 | each argument appends its own slots, at least one word per argument |
| CompilerProperties.CallSlotPerArgument | src/compiler.rs:112-125 | a call appends one slot per argument and none for its result; its code ends in a `Call` of the first declaration with that name |
| CompilerProperties.ZeroArgumentCallsConsumeSlot | src/compiler.rs:112-163 | `f() + g()` adds no slot for either call, and its `Add` pops the slot of the enclosing `let` |
| CompilerProperties.StatementSlots | src/compiler.rs:58-85 | `let` and expression statements change the slot list by their code's net stack effect; a `let` names its slot |
| CompilerProperties.BodySlots | src/compiler.rs:23-31 | a body of `let` and expression statements ends with as many slots as its code leaves words |
| CompilerProperties.ReturnLowering | src/compiler.rs:86-100 | `return e` emits `e`, `Put(len+2)`, `len` `Pop`s and `Return` |
| CompilerCorrectness.VariableDepthReadsBinding | src/compiler.rs:130-144 | the compiler finds a depth exactly for the names the frame binds, and the word at that depth is the bound value |
| CompilerCorrectness.BinaryOperationComputes | src/compiler.rs:146-235 | the emitted instruction computes what the reference evaluator gives |
| CompilerCorrectness.ExpressionComputesValue | src/compiler.rs:104-237 | a call-free expression's code pushes exactly the evaluator's value and leaves the words below alone |
| CompilerCorrectness.BinaryComputesValue | src/compiler.rs:146-235 | the binary case of the same theorem |
| CompilerCorrectness.RunPops | src/compiler.rs:96-98 | `n` `Pop`s remove the top `n` words |
| CompilerCorrectness.ReturnEpilogue | src/compiler.rs:94-99 | `Put(len+2)` and the pops put the value over the caller's result word and leave the saved pc and id on top |
| CompilerCorrectness.LetIntendedBindsValue | src/compiler.rs:58-74 | the intended `let` pushes the initializer's value and binds the name to it for later statements |
| CompilerCorrectness.ExprStatementDrops | src/compiler.rs:75-85 | an expression statement leaves the frame as it found it |
| CompilerCorrectness.ReturnStatementComputes | src/compiler.rs:86-100 | `return e` leaves the caller's words with the word below the saved pc replaced by `e`'s value |
| CompilerCorrectness.BodyComputesResult | src/compiler.rs:23-31 | a call-free body that returns at its end, lowered with the intended `let`, returns the value the reference interpreter gives |
| CompiledRuns.LetFreeLowersAsWritten | src/compiler.rs:50-102 | without `let`, the compiler as written and the intended lowering emit the same code |
| CompiledRuns.CompiledBodyReturns | src/compiler.rs:13-35 | such a compiled function, entered with its arguments, returns after the call in one iteration per instruction, with the interpreter's value in the caller's result word and the heap untouched |
| CompiledRuns.AddCompiles | src/compiler.rs:86-100 | `fn add(a, b) { return a + b; }` lowers to `[Get(3), Get(3), Add, Put(2), Return]` |
| CompiledRuns.AddReturnsSum | src/compiler.rs:86-100 | run from `[…, x, y, pc, fid]`, `add` returns after five iterations with `[…, x, x+y]` and the caller's cursor |
| CompiledRuns.AddProgramExitsSeven | src/compiler.rs:3-41 | `main` calling `add(3, 4)` compiles, runs eleven iterations and exits with code 7 |
| CompilerFindings.LetReadsWrongWord | src/compiler.rs:58-74 | as written, `let x = 5; let y = x; return y;` exits with `u32::MAX`, while the reference semantics gives 5 |
| CompilerFindings.IntendedLetReturnsBinding | src/compiler.rs:58-74 | with the intended `let`, the same program exits with 5 |
| TypeChecker.CheckExpression | src/typechecker.rs:69-123 | every error is true of the environment, and an undeclared or non-function name occurs in the expression |
| TypeChecker.CheckArguments | src/typechecker.rs:78-80 | the `zip` of arguments with parameter types; its errors are explained as above |
| TypeChecker.Signature | src/typechecker.rs:22-28 | a declaration's type is `Fun(parameter types, return type)` |
| TypeChecker.Check | src/typechecker.rs:12-67 | the two loops over the declarations return what the functional checker `CheckProgram` gives |
| TypeChecker.CopyEnv | src/typechecker.rs:42-44 | copying the globals entry by entry gives the globals |
| TypeChecker.CheckStatements | src/typechecker.rs:49-62 | the statement loop returns what `CheckBody` gives |
| TypeCheckerProperties.CheckExpressionDecidesTyping | src/typechecker.rs:69-123 | `check_expression` succeeds exactly on well-typed expressions |
| TypeCheckerProperties.CheckArgumentsDecideTyping | src/typechecker.rs:78-80 | the argument check succeeds exactly when each zipped pair is well typed |
| TypeCheckerProperties.ExtraArgumentsIgnored | src/typechecker.rs:78-80 | arguments beyond the parameters never change the result |
| TypeCheckerProperties.MissingArgumentsAccepted | src/typechecker.rs:76-87 | a call with no arguments is accepted whatever the parameters are |
| TypeCheckerProperties.Bind | src/typechecker.rs:51-54 | a typed `let` binds its name to its declared type; other statements bind nothing |
| TypeCheckerProperties.CheckBodyDecidesTyping | src/typechecker.rs:49-62 | a body is accepted exactly when each statement is well typed in the scope of those before it |
| TypeCheckerProperties.LetInitializerCannotSeeItself | src/typechecker.rs:51-54 | `let x = x` is `UndeclaredVariable(x)` when `x` was not in scope |
| TypeCheckerProperties.LetVisibleAfterwards | src/typechecker.rs:51-54 | later statements see the binding at its declared type |
| TypeCheckerProperties.ReturnCheckedAgainstReturnType | src/typechecker.rs:58-60 | a `return` is checked against the declared return type |
| TypeCheckerProperties.GlobalsHaveEveryName | src/typechecker.rs:13-31 | every declared name, and nothing else, is global before any body is checked |
| TypeCheckerProperties.GlobalsKeepLastDeclaration | src/typechecker.rs:22-28 | a name's global type is its last declaration's signature |
| TypeCheckerProperties.GlobalsVisibleUnlessShadowed | src/typechecker.rs:40-47 | names that are not parameters keep their global type |
| TypeCheckerProperties.ParametersShadowGlobals | src/typechecker.rs:45-47 | a parameter's type replaces a global of the same name |
| TypeCheckerProperties.CheckDecidesTyping | src/typechecker.rs:12-67 | `check` accepts a program exactly when every body is well typed |
| TypeCheckerProperties.DeclarationsDecideTyping | src/typechecker.rs:32-65 | the body loop accepts exactly when each body is well typed in its own environment |
| Lookahead.Head | src/parser.rs:419-431 | the first item, `None` exactly on an empty stream |
| Lookahead.Peekable2.constructor | src/parser.rs:412-417 | nothing is buffered; the stream is the iterator's items |
| Lookahead.Peekable2.Next | src/parser.rs:419-431 | returns the stream's first item and removes it |
| Lookahead.Peekable2.First | src/parser.rs:433-443 | returns the first item and consumes nothing |
| Lookahead.Peekable2.Second | src/parser.rs:445-455 | returns the second item and consumes nothing |
| Lookahead.Peekable2.NextIf | src/parser.rs:457-461 | consumes the first item exactly when it exists and satisfies the predicate; otherwise returns `None` and leaves the stream |
| Lexer.GetTokens | src/parser.rs:31-112 | the token loop returns exactly `Lex(input)` |
| Lexer.NextLexeme | src/parser.rs:35-109 | one loop turn consumes at least one character and yields the lexeme `Lexeme` gives |
| Lexer.NumberOrWord | src/parser.rs:84-106 | a turn that starts on a digit or an identifier character consumes at least one character and yields the number or word `Lexeme` gives |
| Lexer.SkipComment | src/parser.rs:52 | the comment loop stops at the first newline, or at the end |
| Lexer.SkipLine | src/parser.rs:52 | what a comment leaves starts at the first newline and is a suffix of the input |
| Lexer.LexString | src/parser.rs:66-83 | the string loop returns the decoded text and the input after the closing quote |
| Lexer.LexNumber | src/parser.rs:84-91 | the digit loop returns what `ScanNumber` gives |
| Lexer.LexIdentifier | src/parser.rs:92-99 | the word loop takes the longest run of identifier characters |
| LexerProperties.NumberLexes | src/parser.rs:84-91 | a run of digits is one `Number` with its decimal value; a value above `u32::MAX` is a panic |
| LexerProperties.ScanNumberRun | src/parser.rs:86-89 | the digit loop reads the whole run and appends it to the value so far |
| LexerProperties.IdentifierLexes | src/parser.rs:92-105 | the longest identifier run is one token, a keyword exactly for `fn`, `let` and `return` |
| LexerProperties.CommentLexes | src/parser.rs:50-57 | `//` yields `Comment`, and lexing resumes at the newline |
| LexerProperties.OneOrTwoCharacters | src/parser.rs:50-65 | `!=` is `BangEquals`; any other `!` is `Bang`; a lone `/` is `Divide` |
| LexerProperties.WhitespaceSkipped | src/parser.rs:107 | spaces, tabs and line breaks yield no tokens |
| LexerProperties.StringLexes | src/parser.rs:66-83 | a string literal denotes its text, with `\\`, `\n` and `\"` decoded |
| LexerProperties.UnknownEscapePanics | src/parser.rs:70-76 | any other escape is a panic |
| LexerProperties.UnterminatedStringPanics | src/parser.rs:68-80 | a literal the input ends inside is a panic |
| LexerProperties.UnknownStartPanics | src/parser.rs:108 | a character that starts no token and is not whitespace is a panic |
| LexerProperties.DecimalRoundTrip | src/parser.rs:84-91 | the decimal notation of `n` reads back as `n` |
| LexerProperties.SpellingLexes | src/parser.rs:35-109 | every spellable token, written out and followed by a newline, lexes back to itself |
| LexerProperties.LiteralLexeme | src/parser.rs:50-91 | a comment, a number or a string literal, written out and followed by a newline, is one lexeme that gives back that token |
| LexerProperties.RenderLexes | src/parser.rs:31-112 | tokens written one per line lex back to the same tokens |
| Parser.Skip | src/parser.rs:140-146 | an expected token is consumed; anything else is an error |
| Parser.Separated | src/parser.rs:245-251 | after an argument or parameter, `,` is consumed and `)` is left; anything else is an error |
| Parser.UnexpectedNext | src/parser.rs:248-251 | the error names the token `next()` hands out, or is `UnexpectedEof` |
| Parser.ExpectNext | src/parser.rs:140-146 | consumes the expected token, or returns the error `Skip` gives |
| Parser.ExpectSeparator | src/parser.rs:316-330 | agrees with `Separated` |
| Parser.ParseType | src/parser.rs:120-125 | agrees with `ParsedType` |
| Parser.ParseExpression | src/parser.rs:191-195 | agrees with `ParsedExpression` |
| Parser.ParseAdditive | src/parser.rs:197-210 | the operator loop agrees with `ParsedAdditive` |
| Parser.ParseMultiplicative | src/parser.rs:212-228 | the operator loop agrees with `ParsedMultiplicative` |
| Parser.ParseUnary | src/parser.rs:230-232 | a primary |
| Parser.ParsePrimary | src/parser.rs:234-271 | a number, variable, call (argument loop) or parenthesised expression, as `ParsedPrimary` says |
| Parser.ParseStatement | src/parser.rs:127-189 | agrees with `ParsedStatement` |
| Parser.ParseFunction | src/parser.rs:282-380 | agrees with `ParsedFunction` |
| Parser.ParseParameters | src/parser.rs:299-335 | the parameter loop agrees with `ParsedParameters` |
| Parser.ParseBody | src/parser.rs:355-373 | the body loop agrees with `ParsedBody` |
| Parser.Parse | src/parser.rs:273-389 | lexing then the declaration loop gives `ParsedSource(input)` |
| ParserProperties.ExpressionParses | src/parser.rs:191-271 | a printed expression parses back to itself; `*`, `/` and `%` bind tighter than `+` and `-`, all left-associative |
| ParserProperties.ProductBindsTighter | src/parser.rs:197-228 | `a + b * c` is `a + (b * c)` |
| ParserProperties.DifferenceAssociatesLeft | src/parser.rs:197-210 | `a - b - c` is `(a - b) - c` |
| ParserProperties.QuotientAssociatesLeft | src/parser.rs:212-228 | `a / b / c` is `(a / b) / c` |
| ParserProperties.TrailingCommaAccepted | src/parser.rs:239-255 | `f(a,)` is `f(a)` |
| ParserProperties.MissingSeparatorRejected | src/parser.rs:245-251 | an argument followed by neither `,` nor `)` is rejected at that token |
| ParserProperties.TypeIsU32 | src/parser.rs:120-125 | only the identifier `u32` is a type |
| ParserProperties.StatementParses | src/parser.rs:127-189 | a printed statement parses back to itself; a `let` leaves its `;`, the others consume theirs |
| ParserProperties.BodyParses | src/parser.rs:357-373 | a printed body parses back through its `}` |
| ParserProperties.BodyEndsAfter | src/parser.rs:357-373 | a statement followed by `}` ends the body |
| ParserProperties.ReturnClosesBody | src/parser.rs:161-174 | `return e; }` closes a body |
| ParserProperties.LetWithoutSemicolonClosesBody | src/parser.rs:131-159 | `let x: u32 = e }` closes a body without a `;` |
| ParserProperties.BodyRejectsAfter | src/parser.rs:362-366 | a statement followed by neither `;` nor `}` is rejected at that token |
| ParserProperties.StatementAfterReturnRejected | src/parser.rs:362-366 | a statement written straight after `return e;` is rejected at its first token |
| ParserProperties.ParametersParse | src/parser.rs:299-335 | printed parameters parse back through their `)` |
| ParserProperties.FunctionParses | src/parser.rs:282-380 | a printed declaration parses back after its `fn` |
| ParserProperties.ProgramParses | src/parser.rs:280-388 | a printed program parses back, declaration by declaration |
| ParserProperties.OnlyFunctionsAtTopLevel | src/parser.rs:280-386 | any top-level token other than `fn` is rejected; no tokens end the program |
| SourceProperties.SourceRoundTrip | src/parser.rs:273-389 | a program written out as text, one token per line, lexes and parses back to the same declarations |
| SourceProperties.CommentRejected | src/parser.rs:50-57 | a source starting with a comment lexes, and `parse` rejects it at the `Comment` token |

## Left out

- I/O: `main.rs` (argument handling, file reading, printing) is not modelled. Neither is the `println!` tracing inside `run`.
- Host routines: a `Builtin` function is an arbitrary function from (stack, heap) to (stack, heap). Its use of `&mut VirtualMachine` beyond those two is not modelled.
- Machine.VirtualMachine.Run: termination of `run` is not modelled, since programs can loop forever. `Run` takes a fuel bound on the loop iterations.
- Panics are preconditions, not behaviour. This covers `unwrap` on an empty stack, an out-of-range `Get`/`Put`/`Store`/`Load`, pc or function id, the `DivImmediateBy` division by zero, lexer panics and an unresolved name in the compiler.
- LexerProperties.NumberLexes: treats a number above `u32::MAX` as the debug-build overflow panic. The wrapping result of a release build is not modelled.
- The type checker's `Statement::Expr` arm is `todo!()`, so the model requires bodies without expression statements. The `Expression::Block` arm names a variant the syntax tree does not have and is left out.
- The end-to-end correctness theorem (`CompiledRuns.CompiledBodyReturns`) covers call-free bodies. Calls are covered by the bookkeeping lemmas and by the `add` example, not by a general theorem.
- The correctness theorem uses the intended `let` lowering. The code as written is modelled by `Compiler.LowerStatement` and shown wrong under "Findings".
- Strings are sequences of Unicode scalar values. The lexer's `chars()` iteration is modelled on them directly, with no encoding.

## Findings

| source | as written | input that shows it | evidently intended | confidence | as-written member | corrected member |
|---|---|---|---|---|---|---|
| src/compiler.rs:58-74 | a `let` pushes `Some(name)` before lowering its initializer, so every depth the initializer reads is one too deep | `fn main(): u32 { let x: u32 = 5; let y: u32 = x; return y; }` exits with `u32::MAX` (it reads the saved function id) | lower the initializer first, then name the slot holding its value; the program exits with 5 | high; proved on the model, not executed | CompilerFindings.LetReadsWrongWord | CompilerFindings.IntendedLetReturnsBinding |
