# A verified model of the QBE-based C compiler

The project models the compiler in `qbebasedcompiler/src`, from bytes to intermediate code, and
proves that what it produces means what the C source means. Each stage is given twice: as functions
that specify it, and as classes and loops in the form the C code has, proved to compute those functions.
What the stages promise is then proved about the functions.

| stage | specification | as it runs | what is proved |
|---|---|---|---|
| lexer | `Lexing` | `Lexer.dfy` | `Respacing`, `Gaps`, `Spelled`, `Vocabulary`, `Quoted`, `Floating` |
| literals | `Literals` | loops in `Literals` | round trips in `Literals`; `Constants` |
| parser | `Parsing` | `Parser.dfy` | against `Grammar`: `ExprGrammar`, `StmtGrammar`, `FileGrammar`, `Printer`, `Shortest`; `TypeTable` |
| analysis | `Sema`, `Scopes` | `Analyzer` | against C11 rules (`CMeaning`): `ElabSound`, `Narrow`, `Pipeline`; names against `Events`: `Walks`, `Binding` |
| code generation | `Codegen` | `Emitter` | against `Meaning` and `Il`: `ExprSim`, `StmtSim`, `FuncSim`, `LowTests`; `ArithRules`, `Labels`, `BasicBlocks`, `OperandClasses`, `Assigned`, `LongTests`, `Compiled` |
| string literals | `Strings`, `StringPass` | class in `StringPass` | `Strings`, `StringPass`, `StringOrder`, `Datum` |
| arena | `Arena` | class in `Arena` | `Arena` |
| files as text | `Source` | | reading back what is printed |
| all together | `Driver` | `Driver.CompileText` | text to result, `Acceptance` |

`CMeaning` gives parsed trees the meaning of C11 (promotion, common types, conversion on assignment,
sections 6.3.1 and 6.5) without looking at the compiler; `Meaning` does the same for elaborated trees.
`Il` gives the meaning of the flat code: named temporaries, slots, labels, one instruction a step.
Both source meanings take an amount of fuel, and every statement about them is for all amounts, so
runs that do not end are covered as well: the code keeps running as long as the source does.
`Grammar` is the syntax of C11 sections 6.5 and 6.8 as derivation trees, production by production, without
the parser or its precedence table; `FileGrammar` adds definitions and files. `Events` says which declaration
a name stands for from the braces and declarations before it, without a symbol table.

The fragment for which compilation is proved right is the one the code supports: `int` and `long`,
named parameters, one declaration per statement directly in the body, literals, variables, the binary
operators, assignment and compound assignment, postfix `++` and `--`, `?:`, comma, and all statements
but `switch`, labels and `goto`. `Pipeline.InFragment` states it, and `Acceptance` what the compiler
accepts at all. Its limits are shown to be exact: `break` and `continue` only in `while`
(`FuncSim.JumpTargets`), declarations only directly in the body (`Slots.FunctionSlots`), `/=` and `%=` with
no wider right side but for safe constants (`Narrow.NarrowExactly`, `Narrow.DivisorExactly`), and tests of
`int` only: the code of any function does what C prescribes for the function with each tested `long` cast
to `int` (`FuncSim.CodeDoesLow`), and `LongTests` says, operator by operator and statement by statement, for
which values that is the same. `StringPass` shows that a string literal below a label gets no datum.

Where the code departs from C11, the model follows the code: a conditional expression may stand left
of an assignment, a parenthesis after `sizeof` always encloses the operand, `>>` is a logical shift
(implementation-defined for negative operands, section 6.5.7), and an octal or hexadecimal constant above
the largest `int` without suffix has type `long` where section 6.4.4.1 may give `unsigned int`. A constant
of 2^63 or more, of any radix, is read with its value wrapped (`Literals.IntRoundTrip` says exactly these
are); C gives it an unsigned type or none. The trees hold the value as read, so what is proved of a program
speaks of that value, and gives no meaning to a negative one. A floating constant that begins with its
point is cut after it (`Floating.FloatingIsOneToken`). Octal and hexadecimal escapes are not known, in
strings nor are `\a \b \f \v`, and the prefix of a literal is not skipped when it is decoded (`Constants`).
A NUL printed in front of an octal digit is read as part of another byte (`Datum.DatumReadsBack`). The
condition of a `do` is analysed before its body. Several declarators in one declaration make a block, so
their names are not visible after it.

## Model

| member | source | states |
|---|---|---|
| Driver.TextCompilesRight | qbebasedcompiler/src/driver.c:143-159 | From bytes to results: of every text the compiler compiles, the code of each supported function in it returns what C prescribes for every call with the same values in its locals, runs while C runs, and is well formed iff no code follows a terminator; all functions are analysed in the scope the file's own declarations make |
| Driver.CompilerAccepts | qbebasedcompiler/src/driver.c:143-159 | A text is compiled iff the grammar derives functions from its tokens, each of forms that are handled, every name in it declared before it is used, every `break` and `continue` inside a loop |
| Driver.TextLanguage | qbebasedcompiler/src/driver.c:143-159 | A text holds exactly the functions the grammar derives from its tokens; from a text that is refused it derives none |
| Driver.SupportedTextCompiles | qbebasedcompiler/src/driver.c:143-159 | Every text the parser accepts whose functions are all supported is compiled: no stage exits |
| Driver.PrintedTextCompiles | qbebasedcompiler/src/driver.c:143-159 | So is the printed text of every file of supported functions without dangling branches, and it holds that file |
| Driver.CompileText | qbebasedcompiler/src/driver.c:143-159 | The lexer, parser, analysis and emitter run one after the other give exactly the specified definitions, or exit where specified |
| Compiled.SupportedFunction | qbebasedcompiler/src/qbe.c:901-957 | For every supported function without code after a terminator, all arguments and fuel: the compiler succeeds, its code is well formed and returns what C prescribes, running as long as C does |
| Compiled.SupportedCode | qbebasedcompiler/src/qbe.c:901-957 | The code of a supported function is well formed iff no code stands after a terminator in it: distinct labels, defined targets, closed blocks, one class for each temporary, every operand of its class, nothing read before it is written |
| Source.TextReadsBack | qbebasedcompiler/src/parser.c:735-742 | Lexing the printed text of a file of function definitions gives its tokens, and parsing it gives the file back exactly when no `if` before an `else` dangles in it |
| Source.PrintedUnit | qbebasedcompiler/src/parser.c:65-74 | Parsing the tokens of a file of function definitions returns that file iff no branch dangles in it |
| Source.ParsedNoDangling | qbebasedcompiler/src/parser.c:76-92 | Whatever function definition the parser accepts, no branch before an `else` in its body ends in an `if` without `else` |
| Source.PrintedFunction | qbebasedcompiler/src/parser.c:76-92 | Parsing the tokens of a function definition, whatever follows it, returns that definition and stops after it iff no branch dangles in its body |
| Pipeline.CompilerCorrect | qbebasedcompiler/src/qbe.c:901-957 | For every supported function, arguments in range and fuel: if the C function (C11 rules on the parsed tree) returns, the compiled one returns the same value with matching slots; if it is still running, so is the compiled one |
| Pipeline.CompiledCodeIsRight | qbebasedcompiler/src/qbe.c:901-957 | Converse: whatever the compiled code returns is what C prescribes, or C prescribes nothing |
| Pipeline.ElaborationCorrect | qbebasedcompiler/src/sema.c:387-436 | Elaborating a whole function keeps its meaning for all arguments and fuel, wherever C defines one |
| Pipeline.ElaboratedWellFormed | qbebasedcompiler/src/sema.c:407-427 | An elaborated function has distinct consecutive ids for parameters and locals and only operands of the types their operators ask for |
| FuncSim.CompilationCorrect | qbebasedcompiler/src/qbe.c:901-957 | For functions that test no `long`: same returned value and slots as the elaborated function, and the code runs as long as it does |
| FuncSim.CompiledReturnIsRight | qbebasedcompiler/src/qbe.c:901-957 | For functions that test no `long`: if the emitted code returns then the source returns that value or is undefined |
| FuncSim.CodeDoesLow | qbebasedcompiler/src/qbe.c:901-957 | For every well-formed function whose jumps belong to `while` loops, whatever it tests: the code does what C prescribes for the function with each tested `long` cast to `int`, for all arguments and fuel |
| FuncSim.CodeReturnsLow | qbebasedcompiler/src/qbe.c:901-957 | Converse: what the code returns is what that function returns, or C prescribes nothing for it |
| LowTests.LowSameStmts | qbebasedcompiler/src/qbe.c:600-706 | Where no `long` is tested those casts change nothing |
| LowTests.LogicMeaning | qbebasedcompiler/src/qbe.c:330-354 | What `&&` and `\|\|` mean when both operands are tested by their low 32 bits: which operand decides, and the value |
| LowTests.CondMeaning | qbebasedcompiler/src/qbe.c:569-585 | Likewise for `?:`: which arm is evaluated |
| FuncSim.JumpTargets | qbebasedcompiler/src/qbe.c:825-850 | All labels of an emitted function are distinct, and every jump target is defined iff `break` and `continue` occur only where the innermost loop is a `while` |
| StmtSim.SimStmt | qbebasedcompiler/src/qbe.c:600-850 | From any state that matches, the code of a statement reaches its end, the enclosing loop's exit or a `ret`, as the source statement with its tested `long` values cast to `int` does |
| ExprSim.SimExpr | qbebasedcompiler/src/qbe.c:330-596 | From any state that matches, the code of an expression reaches its end with the result temporary holding the C value of the expression with its tested `long` values cast to `int`, side effects done, and only its own temporaries written |
| ExprSim.EvalInRange | qbebasedcompiler/src/qbe.c:52-60 | The value of a well-typed expression fits its type and stores stay in range |
| MachineArith.MachineComputes | qbebasedcompiler/src/qbe.c:481-508 | Where C defines the result, the machine instruction on bit patterns computes the C operator on signed values, for every operator and width |
| ArithRules.RingRule | qbebasedcompiler/src/qbe.c:481-508 | Sum, difference and product are the one value of the type congruent to the exact result |
| ArithRules.ShiftRule | qbebasedcompiler/src/qbe.c:481-508 | Shifts are defined iff the count is below the width; left ones multiply and wrap, right ones divide the bit pattern |
| ArithRules.DivisionRule | qbebasedcompiler/src/qbe.c:481-508 | Quotient and remainder are those of section 6.5.5, and undefined for zero divisors and quotients out of range |
| ArithRules.BitRule | qbebasedcompiler/src/qbe.c:481-508 | Each bit of a bitwise result is that of the operands' bits |
| Labels.StmtJumps | qbebasedcompiler/src/qbe.c:632-706 | Code of any statement defines distinct labels numbered in its own span, and jumps out of it only to the enclosing `while`; with a misplaced `break` or `continue` some jump dangles |
| Labels.ExprClosed | qbebasedcompiler/src/qbe.c:330-354 | Code of any expression defines distinct labels of its own span and jumps to no other |
| OperandClasses.FunctionClassed | qbebasedcompiler/src/qbe.c:118-153 | Every temporary of an emitted well-formed function has one class and every operand fits its place: an `l` value may stand for a `w`, never the reverse |
| OperandClasses.ExprClassed | qbebasedcompiler/src/qbe.c:484-551 | The same for any well-typed expression, its result having the class of its type |
| BasicBlocks.FunctionBlocks | qbebasedcompiler/src/qbe.c:948-955 | The last block of an emitted function ends in a jump or return; nothing stands between a terminator and the next label iff the function is clean, a condition on the syntax |
| BasicBlocks.TidyFunction | qbebasedcompiler/src/qbe.c:104-116 | Functions without statements after a terminator compile to well-formed blocks |
| BasicBlocks.TerminatorEnds | qbebasedcompiler/src/qbe.c:104-116 | When the terminator test says yes of a statement, the code emitted for it ends in a jump or return |
| BasicBlocks.TidyEnds | qbebasedcompiler/src/qbe.c:104-116 | Without statements after a terminator the test is exact, yes iff the emitted code ends in a jump or return, and the code has well-formed blocks |
| BasicBlocks.TidyClean | qbebasedcompiler/src/qbe.c:104-116 | The syntactic half of that: such a statement has no code after a jump or return, and leaves iff the test says yes |
| BasicBlocks.StmtBlocks | qbebasedcompiler/src/qbe.c:600-706 | What the syntax says of a statement's code: whether it is empty, where it begins and ends, and whether its blocks are well formed |
| Assigned.NothingReadUnwritten | qbebasedcompiler/src/qbe.c:356-596 | On every path through an emitted function, taken or not, each temporary is written before it is read |
| Assigned.RunsReadWritten | qbebasedcompiler/src/qbe.c:7-8 | No run of an emitted function, whatever its arguments, comes to an instruction that reads an unwritten temporary |
| Assigned.ExprAssigned | qbebasedcompiler/src/qbe.c:330-354 | Code of an expression reads only temporaries written before it or in it and writes its result on every path |
| Assigned.StmtAssigned | qbebasedcompiler/src/qbe.c:600-706 | Code of a statement reads only temporaries it writes itself |
| LongTests.LongIf | qbebasedcompiler/src/qbe.c:632-650 | From any state that matches, the code of an `if` on a `long`, with or without `else`, evaluates the test and goes to the branch C chooses iff the value is zero or no multiple of 2^32; else to the other |
| LongTests.LongWhile | qbebasedcompiler/src/qbe.c:652-668 | The same for the test of a `while`: into the body or past the loop |
| LongTests.LongDo | qbebasedcompiler/src/qbe.c:670-684 | The same for the test of a `do`, its body run: back into the body or past the loop |
| LongTests.LongFor | qbebasedcompiler/src/qbe.c:686-706 | The same for the test of a `for`, its initialisation run |
| LongTests.LongLogic | qbebasedcompiler/src/qbe.c:330-354 | From any state that matches, the result temporary of `l && r` and `l \|\| r` on `long` holds the C value iff every operand C tests is zero or no multiple of 2^32, or the left one is not and the right one happens to give the same result |
| LongTests.LongCond | qbebasedcompiler/src/qbe.c:569-585 | From any state that matches, the result temporary of `?:` on a `long` holds the C value iff the test is zero or no multiple of 2^32, or both arms have the same value |
| LongTests.LogicRightAnyway | qbebasedcompiler/src/qbe.c:330-354 | An operand that is a nonzero multiple of 2^32 on which the result is right all the same |
| LongTests.LongFunctionDiffers | qbebasedcompiler/src/qbe.c:632-650 | A whole function on which C returns 1 and the compiled code 0 |
| LongTests.LongBranch | qbebasedcompiler/src/qbe.c:577-579 | A `jnz` on a `long` takes the branch C takes iff the value is zero or no multiple of 2^32 |
| LongTests.LongCompare | qbebasedcompiler/src/qbe.c:337-351 | Likewise for the comparison with zero that ends `&&` and `\|\|` |
| Emitter.Emitter.ExprVal | qbebasedcompiler/src/qbe.c:356-596 | The emitter run on an expression appends exactly the specified code, moves the shared counter as specified and returns the result temporary |
| Emitter.Emitter.ShortCircuit | qbebasedcompiler/src/qbe.c:330-354 | The same for `&&` and `\|\|`, temporaries and label ids drawn from one counter |
| Emitter.Emitter.ConditionalVal | qbebasedcompiler/src/qbe.c:569-585 | The same for `?:` |
| Emitter.Emitter.AssignVal | qbebasedcompiler/src/qbe.c:525-552 | The same for simple and compound assignment |
| Emitter.Emitter.PostfixVal | qbebasedcompiler/src/qbe.c:554-567 | The same for postfix `++` and `--` |
| Emitter.Emitter.Statement | qbebasedcompiler/src/qbe.c:600-850 | Statement emission appends the specified code, restores the loop-context stack, and fails exactly where the compiler exits |
| Emitter.Emitter.WhileStatement | qbebasedcompiler/src/qbe.c:652-668 | The same for `while`, whose context is pushed and popped around the body |
| Emitter.Emitter.ForStatement | qbebasedcompiler/src/qbe.c:686-706 | The same for `for` |
| Emitter.Emitter.IfElseStatement | qbebasedcompiler/src/qbe.c:632-650 | The same for `if` with `else`, no jump being printed after a terminator |
| Emitter.Emitter.Func | qbebasedcompiler/src/qbe.c:916-955 | A whole function: parameters stored, locals given slots, body, implicit `ret 0` |
| Acceptance.EmitsExactly | qbebasedcompiler/src/qbe.c:825-850 | Code generation exits on a statement iff a `break` or `continue` in it stands outside of every loop |
| Acceptance.FunctionAccepted | qbebasedcompiler/src/driver.c:143-159 | A function passes analysis and code generation iff its forms are handled, its names are declared before they are used and its jumps stand in loops, all read off the parsed tree |
| Slots.FunctionSlots | qbebasedcompiler/src/qbe.c:933-946 | The slots in the code of a function are those of its parameters and of the declarations directly in its body; every address the code takes is that of a slot iff the body names no other variable |
| Slots.NestedGetsStuck | qbebasedcompiler/src/qbe.c:940-946 | A function with a declaration in a block on which C returns 0 and the code takes the address of no slot |
| ElabSound.ElabEval | qbebasedcompiler/src/sema.c:120-299 | Elaborating an expression keeps its value, its side effects and its store, under C11 promotions and conversions |
| ElabSound.ElabTyped | qbebasedcompiler/src/sema.c:233-294 | Elaborated expressions are well typed and have the type C gives the original |
| ElabSound.ElabExec | qbebasedcompiler/src/sema.c:313-385 | Elaborating a statement keeps what it does for any amount of fuel |
| ElabSound.ElabStmtTyped | qbebasedcompiler/src/sema.c:313-385 | Elaborated statements are well typed |
| ElabSound.CompoundValue | qbebasedcompiler/src/sema.c:277-283 | Casting the right side of `op=` to the left type first gives what C prescribes, unless `/=` or `%=` has a wider right side whose value is no safe divisor |
| ElabSound.CompoundElaborated | qbebasedcompiler/src/sema.c:277-283 | What an elaborated compound assignment computes for any types: the operator, in the type of the left side, on its value and the right side cast to that type |
| ElabSound.MakeCastEval | qbebasedcompiler/src/sema.c:105-118 | An inserted cast converts the value as C does |
| Narrow.NarrowExactly | qbebasedcompiler/src/sema.c:277-283 | For an `int` left side and `long` right side, narrowing first gives the C result for all operands iff the operator is neither `/` nor `%` |
| Narrow.DivisorExactly | qbebasedcompiler/src/sema.c:277-283 | For each `long` divisor, `/=` and `%=` on an `int` are right for all dividends iff it lies in the range of `int` and is not -1, or, for `%=`, is 2^31 |
| Narrow.NarrowFirst | qbebasedcompiler/src/qbe.c:525-552 | Narrowing first is right for `+= -= *= &= \|= ^= <<= >>=` on all operands for which C defines a result |
| Narrow.DivisionDiffers | qbebasedcompiler/src/sema.c:277-283 | Inputs for which `/=` and `%=` go wrong |
| Scopes.LookupIsView | qbebasedcompiler/src/sema.c:50-56 | Walking the scope chain finds the innermost, latest declaration of a name |
| Scopes.ScopeRestores | qbebasedcompiler/src/sema.c:30-37 | After any balanced run of declarations and scopes, leaving restores the chain from before entering |
| Scopes.BalancedRun | qbebasedcompiler/src/sema.c:30-48 | A balanced run changes only its own scope, to which it only adds |
| Scopes.DeclaredView | qbebasedcompiler/src/sema.c:39-48 | Declaring a name makes the environment map it to the new symbol and changes nothing else |
| Scopes.EnteredView | qbebasedcompiler/src/sema.c:30-35 | Entering a scope leaves the environment as it is |
| Scopes.LocalIdsDistinct | qbebasedcompiler/src/sema.c:39-48 | Over any run no two parameters or locals of a function get the same id |
| Binding.FunctionBindings | qbebasedcompiler/src/sema.c:136-147 | A function is analysed iff its forms are handled and every name in it has a declaration it stands for: the last one of that name before it whose block is still open; each use then has that declaration's id and type and each declaration the next id; otherwise the first name without one is what it is refused for |
| Binding.StatementRuns | qbebasedcompiler/src/sema.c:313-385 | Analysis of any statement, nested declarations included, is a balanced run of entering, leaving and declaring; blocks and `for` leave the scope chain exactly as it was |
| Binding.UseFinds | qbebasedcompiler/src/sema.c:50-56 | At every use the symbol table answers with the declaration the name stands for, or with the scope of the file when there is none |
| Binding.BinderStands | qbebasedcompiler/src/sema.c:50-56 | Reading a function backwards past closed blocks finds the one declaration a name stands for |
| Binding.FileNames | qbebasedcompiler/src/sema.c:387-400 | In the scope of a file a name is that of the last function so named, its id being its place in the file |
| Walks.StmtVisits | qbebasedcompiler/src/sema.c:313-385 | Analysing a statement comes to the same names, scopes and counter, or the same error, as a walk over its braces, declarations and uses |
| Walks.FuncForm | qbebasedcompiler/src/sema.c:407-427 | Only functions of handled forms pass analysis |
| Analyzer.Analyzer.Declare | qbebasedcompiler/src/sema.c:39-48 | Declaring puts the symbol in front of the current scope with the next free id |
| Analyzer.Analyzer.LookUp | qbebasedcompiler/src/sema.c:50-56 | The nested loops over scopes and symbols compute the specified lookup |
| Analyzer.Analyzer.Expression | qbebasedcompiler/src/sema.c:120-299 | Expression analysis returns the specified elaboration or error |
| Analyzer.Analyzer.Statement | qbebasedcompiler/src/sema.c:313-385 | Statement analysis returns the specified elaboration and updates scopes and counters as specified |
| Analyzer.Analyzer.Function | qbebasedcompiler/src/sema.c:411-427 | Function analysis returns the specified elaboration and leaves the scope chain as it was |
| Analyzer.Analyzer.Program | qbebasedcompiler/src/sema.c:387-436 | The two passes declare all functions of a file, then analyse each in that scope, as specified, and leave the scope |
| ExprGrammar.ExpressionLanguage | qbebasedcompiler/src/parser.c:437-590 | The expression parser accepts a token list with tree `e` iff the list is a derivation of `e` in the C11 grammar, whose productions are given without the parser's table: sound, complete and unambiguous |
| ExprGrammar.ExpressionComplete | qbebasedcompiler/src/parser.c:437-590 | Every expression of the grammar, in front of a token that does not continue it, is parsed to its tree, stopping at that token |
| ExprGrammar.ExpressionSound | qbebasedcompiler/src/parser.c:437-590 | Whatever prefix the parser accepts is an expression of the grammar with the tree returned |
| ExprGrammar.OperatorPrecedence | qbebasedcompiler/src/parser.c:479-493 | The precedence in the parser's table is the place of the operator's production among those of sections 6.5.5 to 6.5.14 of C11 |
| ExprGrammar.TokenPrecedence | qbebasedcompiler/src/parser.c:449-493 | For every token, the table and the parser's other tests agree with the production the token would continue an expression by, or that there is none |
| ExprGrammar.BinaryComplete | qbebasedcompiler/src/parser.c:479-507 | Precedence climbing with any minimum continues exactly after each operand that binds tightly enough, left-associatively |
| ExprGrammar.BinaryLoopSound | qbebasedcompiler/src/parser.c:495-507 | What the climbing loop accumulates is a derivation, and the operator it stops at binds less tightly than asked |
| ExprGrammar.ConditionalComplete | qbebasedcompiler/src/parser.c:465-477 | Conditional expressions are right-associative with a full expression between `?` and `:` |
| ExprGrammar.AssignmentComplete | qbebasedcompiler/src/parser.c:449-463 | Assignments are right-associative |
| ExprGrammar.UnaryComplete | qbebasedcompiler/src/parser.c:509-535 | Prefix operators and `sizeof` apply to the longest postfix operand |
| ExprGrammar.PostfixComplete | qbebasedcompiler/src/parser.c:537-590 | Suffixes apply from left to right, whatever follows |
| StmtGrammar.StatementLanguage | qbebasedcompiler/src/parser.c:309-435 | The statement parser accepts exactly the statements of the grammar, so each `else` belongs to the nearest `if` |
| StmtGrammar.StatementComplete | qbebasedcompiler/src/parser.c:309-435 | Every statement of the grammar is parsed to its tree unless an `else` follows that an `if` at its end would take |
| StmtGrammar.StatementSound | qbebasedcompiler/src/parser.c:309-435 | Whatever the parser accepts is a statement of the grammar with the tree returned, and it took any `else` it could |
| StmtGrammar.ItemsComplete | qbebasedcompiler/src/parser.c:242-253 | A block is parsed to its statements up to its own closing brace |
| StmtGrammar.DeclarationComplete | qbebasedcompiler/src/parser.c:255-307 | Declarations are parsed to their declarators, several making a block |
| StmtGrammar.NotLabel | qbebasedcompiler/src/parser.c:412-426 | No expression statement is taken for a labelled one |
| StmtGrammar.SpecifiersSound | qbebasedcompiler/src/parser.c:121-167 | Specifiers are the longest run of type keywords, in order |
| FileGrammar.FunctionLanguage | qbebasedcompiler/src/parser.c:76-92 | The parser accepts a function definition iff the grammar derives it, `()`, `(void)` and parameter lists included, and returns the function derived |
| FileGrammar.FileLanguage | qbebasedcompiler/src/parser.c:65-74 | Likewise for whole files: everything else is refused |
| TypeTable.TableOfTypes | qbebasedcompiler/src/parser.c:140-163 | Every list of specifiers that names a type by the table of section 6.7.2 of ISO C11 is given that type, in any order and with anything else in it |
| TypeTable.TypeByOccurrence | qbebasedcompiler/src/parser.c:140-163 | The type of any list, by which of the deciding words occur in it |
| TypeTable.InsertedWord | qbebasedcompiler/src/parser.c:121-139 | `int`, `signed`, qualifiers and storage classes inserted anywhere leave the type as it is |
| TypeTable.Reordered | qbebasedcompiler/src/parser.c:121-163 | The order of specifiers does not matter |
| TypeTable.SpecifierKeywords | qbebasedcompiler/src/parser.c:106-117 | The keywords read as specifiers are those of sections 6.7.1 to 6.7.5 but five |
| TypeTable.StartingKeywords | qbebasedcompiler/src/parser.c:106-117 | Of these, the ones that start a declaration inside a function |
| TypeTable.SupportedTypes | qbebasedcompiler/src/qbe.c:31-45 | The supported types are signed, and their slots and registers have the size of the type |
| Printer.PrintedExpression | qbebasedcompiler/src/parser.c:437-590 | Parsing the minimally parenthesised tokens of any expression tree returns that tree and stops at the first token that does not continue it |
| Printer.PrintedStatement | qbebasedcompiler/src/parser.c:309-435 | Parsing the tokens of a statement tree returns it iff no branch before an `else` ends in an `if` without `else` |
| Shortest.FewestParentheses | qbebasedcompiler/src/parser.c:437-590 | No token list shorter than the printed one derives the same tree in the C11 grammar: dropping any pair of parentheses gives another tree or none |
| Shortest.FitShortest | qbebasedcompiler/src/parser.c:437-590 | The same at every place in an expression: no derivation that fits the place has fewer tokens |
| Printer.LeafSpelled | qbebasedcompiler/src/parser.c:675-722 | Each literal token is read as the literal it was spelled for, type included |
| Printer.SpelledType | qbebasedcompiler/src/parser.c:655-667 | The suffix of an integer literal gives it its type |
| Parsing.ParseExpression | qbebasedcompiler/src/parser.c:437-447 | Progress: a successful parse consumes at least one token |
| Parsing.ParseBinary | qbebasedcompiler/src/parser.c:495-507 | Progress of precedence climbing, for every minimum |
| Parsing.ParseUnary | qbebasedcompiler/src/parser.c:509-535 | Progress of the prefix level |
| Parsing.ParsePostfix | qbebasedcompiler/src/parser.c:537-590 | Progress of the suffix chain |
| Parsing.ParseStatement | qbebasedcompiler/src/parser.c:309-435 | Progress: a successful parse consumes at least one token, so the statement functions terminate |
| Parsing.ParseItems | qbebasedcompiler/src/parser.c:242-253 | Progress of the block loop, which returns a block |
| Parsing.ParseVarDecl | qbebasedcompiler/src/parser.c:255-307 | Progress of declarations |
| Parsing.ParseFunction | qbebasedcompiler/src/parser.c:76-92 | Progress of function definitions |
| Parsing.ParseUnit | qbebasedcompiler/src/parser.c:65-74 | A file is read to its end without giving tokens back |
| ParserRun.Parser.Advance | qbebasedcompiler/src/parser.c:26-29 | The two-token window moves by one token and never past the end |
| ParserRun.Parser.Expression | qbebasedcompiler/src/parser.c:437-447 | The loop over the window returns the specified tree and leaves the specified tokens, or exits as specified |
| ParserRun.Parser.BinaryFrom | qbebasedcompiler/src/parser.c:495-507 | The same for the climbing loop |
| ParserRun.Parser.PostfixChain | qbebasedcompiler/src/parser.c:537-590 | The same for the suffix loop |
| ParserRun.Parser.UnaryOperand | qbebasedcompiler/src/parser.c:509-535 | The same for prefix operators and `sizeof` |
| ParserRun.Parser.Statement | qbebasedcompiler/src/parser.c:309-435 | The same for statements |
| ParserRun.Parser.Compound | qbebasedcompiler/src/parser.c:242-253 | The same for blocks |
| ParserRun.Parser.DeclSpecifiers | qbebasedcompiler/src/parser.c:121-167 | The flags kept while reading specifiers give the specified type, whatever the order |
| ParserRun.Parser.VariableDeclaration | qbebasedcompiler/src/parser.c:255-307 | The same for declarations |
| ParserRun.Parser.FunctionDefinition | qbebasedcompiler/src/parser.c:76-92 | The same for function definitions |
| ParserRun.Parser.TranslationUnit | qbebasedcompiler/src/parser.c:65-74 | The loop over external declarations returns the specified functions, or exits as specified |
| Respacing.RespacingKeepsTokens | qbebasedcompiler/src/Lexer.c:255-277 | For every text that lexes, its spellings joined with single spaces lex to the same tokens |
| Respacing.PrintedTokens | qbebasedcompiler/src/Lexer.c:255-277 | A token list joined with single spaces lexes back to itself iff each token's spelling alone lexes to that token |
| Respacing.TokenLocal | qbebasedcompiler/src/Lexer.c:344-579 | The token at the start of a text stays the same when its bytes are followed by a space instead of what followed |
| Respacing.NumberLocal | qbebasedcompiler/src/Lexer.c:464-525 | The same for numbers, exponent back-up and suffixes included |
| Respacing.MaximalMunch | qbebasedcompiler/src/Lexer.c:374-456 | The punctuator found is the longest the text starts with |
| Respacing.TokenSpelled | qbebasedcompiler/src/Lexer.c:177-185 | A token's spelling is the bytes it was made of |
| Gaps.GapIsSkipped | qbebasedcompiler/src/Lexer.c:187-233 | What is skipped before a token is exactly a run of spaces, line splices and closed comments, all of it, whatever the text |
| Gaps.TextIsTiled | qbebasedcompiler/src/Lexer.c:187-277 | A text that lexes is its gaps and its non-empty tokens one after the other: no byte is lost or read twice |
| LexerRun.Lexer.NextToken | qbebasedcompiler/src/Lexer.c:255-277 | One call moves the cursor past the gap and the token as specified and stays in the text; the token's line is one plus the line ends before it while no literal read so far spliced lines, and only such a literal changes that |
| LexerRun.TokenOneLine | qbebasedcompiler/src/Lexer.c:374-579 | No token but a string or character literal with a backslash before a line end contains a line end |
| LexerRun.Lexer.Tokens | qbebasedcompiler/src/Lexer.c:255-277 | Repeated calls reach the end of any text and deliver the specified tokens; over the whole run, every token before which no literal splices lines has line one plus the line ends before it |
| LexerRun.Lexer.SkipTrivia | qbebasedcompiler/src/Lexer.c:187-233 | The skipping loop moves as specified, counts every line end and notes an unclosed comment |
| LexerRun.Lexer.Number | qbebasedcompiler/src/Lexer.c:464-525 | The loops with save and restore of the cursor compute the specified number |
| LexerRun.Lexer.Exponent | qbebasedcompiler/src/Lexer.c:495-506 | An exponent mark without digits is given back |
| LexerRun.Lexer.Quoted | qbebasedcompiler/src/Lexer.c:529-579 | The loop over a literal stops at its closing quote, a line end or the end of the text, as specified |
| LexerRun.Lexer.Identifier | qbebasedcompiler/src/Lexer.c:344-370 | Words, keywords and prefixed literals as specified |
| LexerRun.Lexer.LookupKeyword | qbebasedcompiler/src/Lexer.c:334-340 | The table search returns the specified keyword |
| Spelled.KeywordFound | qbebasedcompiler/src/Lexer.c:287-340 | Each keyword is found by its own text and no other entry has it |
| Vocabulary.KeywordsExactly | qbebasedcompiler/src/Lexer.c:287-340 | A text is found in the table iff it is a keyword of section 6.4.1, and as that keyword |
| Vocabulary.WordIsOneToken | qbebasedcompiler/src/Lexer.c:344-370 | Letters, digits and underscores, in front of what does not continue them, are one keyword or name |
| Vocabulary.WordRead | qbebasedcompiler/src/Lexer.c:344-370 | Whatever is read as a keyword or name has that form and is as long as it can be |
| Quoted.QuotedIsOneToken | qbebasedcompiler/src/Lexer.c:529-579 | Any characters and escapes between quotes, whatever follows, are one literal |
| Quoted.QuoteStarts | qbebasedcompiler/src/Lexer.c:529-579 | A quote begins a literal iff a closing quote follows on its line that is not escaped |
| Quoted.PrefixedIsOneToken | qbebasedcompiler/src/Lexer.c:349-366 | A literal with an encoding prefix is one token |
| Quoted.ErrorExactly | qbebasedcompiler/src/Lexer.c:374-456 | A byte that begins no word, number or literal is an error iff it begins no punctuator of section 6.4.6 |
| Quoted.OperatorRead | qbebasedcompiler/src/Lexer.c:374-456 | Each binary operator's text is one token, which the parser takes for that operator and no other token for it |
| Quoted.AssignmentRead | qbebasedcompiler/src/Lexer.c:374-456 | The same for assignment operators |
| Quoted.PrefixRead | qbebasedcompiler/src/Lexer.c:374-456 | The same for prefix operators |
| Floating.FloatingIsOneToken | qbebasedcompiler/src/Lexer.c:464-525 | A floating constant of section 6.4.4.2, decimal or hexadecimal, in front of a delimiter, is one floating token iff it is hexadecimal or has a digit before its point |
| Floating.MarkGivenBack | qbebasedcompiler/src/Lexer.c:495-506 | After decimal digits, with a point or without, `e` and a sign without digits are left for the next token |
| Floating.SuffixedDecimal | qbebasedcompiler/src/Lexer.c:464-525 | Decimal digits, a point or none, and any run of suffix marks are one token that ends with the last mark, `f` being a mark only after a point |
| Floating.BareBinaryExponent | qbebasedcompiler/src/Lexer.c:464-525 | A hexadecimal constant keeps its `p` and sign even without exponent digits |
| Spelled.IntegerIsOneToken | qbebasedcompiler/src/Lexer.c:464-525 | Every spelling of every number, decimal, octal or hexadecimal, with any suffix marks, in front of a delimiter, is one integer token |
| Spelled.StringIsOneToken | qbebasedcompiler/src/Lexer.c:529-553 | Any bytes, escaped and quoted, are one string token whatever follows |
| Spelled.CharacterIsOneToken | qbebasedcompiler/src/Lexer.c:555-579 | The same for every character constant |
| Spelled.SymLone | qbebasedcompiler/src/Lexer.c:374-456 | Every punctuator's spelling lexes to it alone |
| Literals.IntRoundTrip | qbebasedcompiler/src/parser.c:592-608 | A number is decoded from each of its spellings, with any suffix, as itself wrapped to 64 bits, so as itself iff it is below 2^63 |
| Literals.EscapeRoundTrip | qbebasedcompiler/src/qbe.c:878-892 | Bytes escaped as in string data decode to themselves iff all are printable ASCII, newline, tab, carriage return or NUL |
| Literals.CharRoundTrip | qbebasedcompiler/src/parser.c:617-631 | Every character code is decoded from its spelling |
| Constants.ConstantRead | qbebasedcompiler/src/parser.c:592-615 | The value and type read for any number in any radix with any suffix in any case and order |
| Constants.ConstantTypes | qbebasedcompiler/src/parser.c:609-615 | That type is the one of section 6.4.4.1 iff the number lies in a range given for its radix and suffix |
| Constants.CharEscape | qbebasedcompiler/src/parser.c:617-631 | After a backslash in a character constant, the codes of section 6.4.4.4 for the simple escapes and of the character itself for all else |
| Constants.StringEscape | qbebasedcompiler/src/parser.c:633-653 | Likewise in strings, where four of the letters stand for themselves |
| Constants.PrefixNotSkipped | qbebasedcompiler/src/parser.c:633-653 | A prefixed string literal is decoded with its prefix |
| Constants.PrefixedCharacter | qbebasedcompiler/src/parser.c:617-631 | A prefixed character constant has the code of its quote |
| Datum.OctalEscape | qbebasedcompiler/src/qbe.c:874-895 | Every byte that is not plain is printed as a backslash and three octal digits whose value is the byte |
| Datum.DatumReadsBack | qbebasedcompiler/src/qbe.c:874-895 | Read with letter and octal escapes, the datum printed for any bytes denotes those bytes iff no NUL stands in front of an octal digit |
| Datum.NulDigitLost | qbebasedcompiler/src/qbe.c:874-895 | NUL and the digit 1 are printed as one escape |
| Literals.DecodeIntLoop | qbebasedcompiler/src/parser.c:592-608 | The digit loop computes the specified value, wrapping at 64 bits |
| Literals.DecodeStrLoop | qbebasedcompiler/src/parser.c:633-653 | The escape loop stays within its buffer of one byte more than the quoted text and leaves the decoded bytes and a NUL in it |
| Literals.Unescape | qbebasedcompiler/src/parser.c:638-650 | Decoding never lengthens a string, so the buffer suffices |
| StringPass.ReferencesReached | qbebasedcompiler/src/qbe.c:233-326 | For every statement: the collecting pass reaches all string literals code generation refers to iff no labelled statement refers to one |
| StringPass.ProgramInterning | qbebasedcompiler/src/qbe.c:905-911 | For every program: all referenced literals are reached iff no labelled statement refers to one, and the literals reached find the datum with their bytes iff at most 1024 of them differ |
| StringPass.ReferencesResolved | qbebasedcompiler/src/qbe.c:375-379 | With both conditions every reference in the emitted code names the datum with its bytes, two references name the same datum iff their bytes are equal, and the table holds each literal of the program once and no other |
| StringPass.LabelledLiteralMissed | qbebasedcompiler/src/qbe.c:858-864 | A program whose code refers to datum 0 while no datum is printed |
| StringPass.RunInterns | qbebasedcompiler/src/qbe.c:233-252 | Run on literal nodes at different places, the pass fills the table with their bytes in order and leaves each node its own number |
| StringOrder.StmtMeets | qbebasedcompiler/src/qbe.c:253-326 | The pass meets a string literal of a statement iff it does not stand below a member access, a `sizeof` or a label |
| StringOrder.StmtOrder | qbebasedcompiler/src/qbe.c:253-326 | It meets them in the order of their places in the tree, so that is the order of their numbers |
| StringOrder.ProgramOrder | qbebasedcompiler/src/qbe.c:905-911 | So for a whole program, function by function |
| StringPass.Collector.Literal | qbebasedcompiler/src/qbe.c:235-252 | The search loop gives a literal node the specified number and stores it as specified |
| StringPass.Collector.Expression | qbebasedcompiler/src/qbe.c:253-326 | The walk visits the literals of an expression the specification lists, in that order |
| StringPass.Collector.Statement | qbebasedcompiler/src/qbe.c:253-326 | The same for statements |
| StringPass.Collector.Program | qbebasedcompiler/src/qbe.c:905-911 | The same for all function bodies of a program |
| Strings.InterningExact | qbebasedcompiler/src/qbe.c:235-252 | For literals met in any order: every number leads to a datum with the literal's bytes iff at most 1024 literals differ; then numbers are equal iff the literals are, with one datum for each |
| Strings.InternRun | qbebasedcompiler/src/qbe.c:235-252 | Over any run the table holds no literal twice, only grows, and serves every literal met while there was room |
| Strings.Escape | qbebasedcompiler/src/qbe.c:874-895 | The loop over the bytes writes the specified escaped text |
| Arena.RunIsSafe | qbebasedcompiler/src/ast.c:113-127 | Over any run every region is large enough, starts at a multiple of 16, lies in its block, was free before, and shares no byte with another |
| Arena.RunIsTight | qbebasedcompiler/src/ast.c:113-127 | Over any run the bytes in use grow by exactly the rounded requests, and a block is opened only for a request the newest had no room for |
| Arena.Pool.Take | qbebasedcompiler/src/ast.c:113-127 | One call changes the block list and returns the region as specified |

## Left out

- Parsing.ParseFunction: external declarations other than function definitions with named, non-pointer, non-array parameters stop the model's parser with a reason of their own, because types are scalar here.
- ParserRun.Parser.FunctionDefinition: the same limit, in the class.
- Parsing.ParseUnit: the same limit for a whole file, in which the code also takes global variables, prototypes and type declarations.
- Parsing.ParseVarDecl: `*` and `[` after a declared name stop the model's parser likewise; typedef names, which the code never registers, are not kept.
- ParserRun.Parser.VariableDeclaration: the same limit, in the class.
- ParserRun.Parser.TranslationUnit: the same limit for a whole file, in the class.
- Analyzer.Analyzer.Program: files hold function definitions only, so no global variables are declared.
- Analyzer.Analyzer.Expression: prefix operators, calls, indexing, members, `sizeof` and operands of types other than `int` and `long` give `Unsupported`, where the code goes on to what code generation does not compile faithfully.
- Analyzer.Analyzer.Statement: `switch`, labels, `goto` and `return` without a value give `Unsupported` where the code leaves them unvisited.
- ElabSound.ElabEval: compound division and remainder with a wider right side that is no safe constant are excluded, the property being false there (`Narrow.DivisorExactly`), as are the forms `Analyzer.Analyzer.Expression` names.
- ElabSound.ElabExec: the same exclusion, and statements that hold no declaration; declarations directly in the body are treated in `Pipeline.ElaborationCorrect`.
- ElabSound.ElabStmtTyped: statements that hold no declaration; declarations are treated in `Pipeline.ElaboratedWellFormed`.
- Literals.EscapeRoundTrip: this reads string data back with the compiler's own decoder, which knows no octal escapes; with them it is `Datum.DatumReadsBack`.
- LexerRun.Lexer.NextToken: columns are computed but nothing is claimed of them, as they are off after a block comment with line ends.
- StringPass.ProgramInterning: the pass walks the tree after analysis, which may have put casts around operands; casts hold no literals of their own and are not in the model's trees. Of a `switch` the cases beyond the queue's 128 entries are not considered.
- Arena.RunIsSafe: sizes are unbounded numbers, so a request near the top of `size_t` does not wrap, and memory does not run out.
- Pipeline.CompilerCorrect: division by zero, division overflow, shift counts out of range and reading an unset variable are undefined on both sides; signed overflow wraps.
- Unsigned, character, short, boolean and floating types, pointers, arrays, indexing, calls and globals in analysis and code generation: the code stores words in narrow slots, multiplies unextended indices and confuses global with local ids.
- Prefix operators in code generation: they fall out of the emitter's switch and yield temporary 0.
- `switch`, `case`, `goto` and labels in analysis and code generation: analysis does not visit them.
- `return` without a value in analysis and code generation; what code with several declarators in one declaration or declarations in nested blocks does, beyond that they get no slot (`Slots`).
- The text format of the intermediate language: instructions are values, not lines.
- Addresses: a slot is named by the id of its variable.
- Trees are values: analysis builds a new tree where the code rewrites nodes in place, so sharing of nodes and the `next` links of lists are not captured.
- Fixed capacities of 64 loop contexts, 256 labels and 128 cases of a `switch`, and the driver, the command line and the separate `mini-cc` program.
