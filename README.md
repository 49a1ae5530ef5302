# A verified model of a small Scheme interpreter

This project models the core of `scheme.cc`, a single-file Scheme interpreter, and proves properties of that model. The core has these parts:

- the tokenizer, with its one-token pushback stack;
- the recursive-descent reader;
- the tagged value type `SchemeType`, with truthiness, `eq` and the printer;
- environment frames with nearest-binding lookup;
- closure application and `callFunc`;
- the analyzer, which compiles a datum once into an expression;
- the macro expander, which runs passes until one makes no substitution, plus `macroify`;
- the builtins that `setupEnv` installs.

Each part has two forms:

- A pure specification: datatypes and functions in `Lexer`, `Reader`, `Printer`, `Values`, `Environment`, `Builtins`, `Analyzer` and `Semantics`.
- An imperative form where the source changes state or loops. This is `Lexer.Tokenizer`, `Reader.Parser`, `Printer.Print`, `Values.ListToVector` and `Interp.Interpreter`. Each of their methods is proved to compute what the corresponding function says.

The laws the source promises are proved about the specification functions. They live in the modules `LexLaws`, `RoundTrip`, `Identities`, `Laws` and `Scenarios`, and beside the definitions.

How the source maps to the model:

- **Values.** A pair node and a closure carry an identity number, so `eq?` can compare them by node identity the way the source compares `shared_ptr`s.
- **Identities.** The state holds a counter `next`. Evaluation takes each new identity from it: a `cons`, a lambda, a call's frame and rest list, and a node rebuilt by an expansion pass. The reader is started at the counter and returns the first identity it did not use, so a datum read there is new as well (`Identities.ReadIsNew`).
- **The identity invariant.** `Identities.Wf` says that every frame, every value bound in a frame and every macro lies below `next`. It holds initially and every step keeps it: `Identities.EvalKeeps` and the lemmas beside it prove this, and so does `Identities.RunFormKeeps`, for a whole top-level form. So a new identity is never `eq?` to one the program can reach (`Laws.ConsIsFresh`, `Laws.ConsAfterEval`). A term written directly in Dafny with a pair identity at or above `next` lies outside the invariant; neither the reader nor the interpreter builds one.
- **Frames.** A frame is its identity plus its parent link. The tables of all frames sit in one store (`Environment.Store`) owned by the interpreter state. `define` and `SchemeClosure::apply` update that store in place, and `findFrame` walks the parent links. `macroify` writes the macro table, the other part of the state.
- **Expressions.** The analyzer's `std::function` results are the datatype `Values.Expr`. It keeps the analyse-once shape: a lambda body is analysed when the lambda is, and again never.
- **Outcomes.** An `assert` of the source that can fail ends the run with `AssertionFailure`. A dereference the source performs on a null `cons_` or past the end of a vector ends it with `UndefinedBehaviour`. Examples are `car` of a non-pair, iterating an improper list, and `args[0]` of an empty vector.
- **Fuel.** Closure calls and macro expansion need not terminate. Each `callFunc` and each expansion pass consumes one unit of fuel, and running out is the outcome `OutOfFuel`.

Behaviours of the code that the model keeps as written:

- An unterminated string literal reads as the empty string (scheme.cc:133-148). The loop ends when `!is_.good()` and then returns `""`, not the characters gathered so far. A backslash just before the end of the input counts as unterminated too.
- `define-macro` only defines (scheme.cc:563-566). It is dispatched to `analyzeDefine`, like `define`, and registers no macro; only `macroify` does.
- Calling a value that is neither a builtin nor a closure fails the `assert` in `callFunc` (scheme.cc:520-523); no ERR value is returned.
- Some builtins misbehave on unsuitable arguments, and the model ends each such case with `UndefinedBehaviour`:
  - `+` on a value other than an integer or `()` (scheme.cc:798-805) reads the uninitialised `num_` of that value. `()` counts as 0: every `()` is a copy of the static `schemeNil` (scheme.cc:251), whose `num_` the constructor (scheme.cc:168) never writes and so keeps its zero initialisation. So `(+ 1 '())` is 1, and so is `((lambda (x y) (+ x y)) 1)`, where the missing `y` is bound to `()`.
  - `car` and `cdr` of a non-pair (scheme.cc:819-826) dereference its null `cons_`.
  - `cons` with fewer than two arguments (scheme.cc:815-818) reads `args[1]` past the end of the vector, and `car`, `cdr`, `pair?` and `null?` with no arguments (scheme.cc:819-838) read `args[0]` past the end.

## Model

| member | source | states |
|---|---|---|
| LexLaws.Classifies | scheme.cc:84-131 | The first significant character decides the token, in both directions. `( ) . '` give punctuation, a digit gives INT, an `isSchemeId` character gives ID, `"` gives STR, and `#t`/`#f` give BOOL. Anything else, including `#` followed by another character, gives ERR. |
| LexLaws.BlanksSkipped | scheme.cc:91-95 | A run of whitespace before a token changes nothing about the token read. |
| LexLaws.CommentSkipped | scheme.cc:103-107 | A `;` comment is skipped up to and including the newline ending its line. |
| LexLaws.CommentAtEnd | scheme.cc:103-107 | A comment on the last line runs to the end of the input, where the token is ERR. |
| LexLaws.IdentifierIsMaximal | scheme.cc:111-119 | An identifier starts with an `isSchemeId` character and is the longest run of alphanumeric or `isSchemeId` characters. |
| LexLaws.MinusFiveIsIdentifier | scheme.cc:59-64 | `-5` reads as one identifier token, not as a number. |
| LexLaws.NumberIsMaximal | scheme.cc:120-125 | A leading digit gives an INT whose value is the decimal value of the longest digit run. |
| LexLaws.UnterminatedIsEmpty | scheme.cc:133-148 | A string with no unescaped quote reads as the empty string and consumes the rest of the input. A quote is escaped when an odd number of backslashes precede it. |
| LexLaws.EscapedQuoteAtEnd | scheme.cc:133-148 | `"a\"` at the end of the input reads as the empty string: the escaped quote does not close it. |
| LexLaws.PlainStringRead | scheme.cc:133-148 | Text without quotes or backslashes is read verbatim up to the closing quote, and the position is just after it. |
| LexLaws.EscapeStep | scheme.cc:139-145 | A backslash and the character after it add one character: a newline for `n`, otherwise that character itself (a quote or a backslash included), which does not end the string. |
| LexLaws.EscapedRead | scheme.cc:133-148 | Any text written with a backslash before each quote and each backslash, then a closing quote, reads back as that text. The position is just after the quote. |
| LexLaws.EscapesRead | scheme.cc:139-145 | `"a\n\"b"` reads as the text a, newline, quote, b. |
| Lexer.Lex | scheme.cc:91-130 | Reading a token from the stream never moves backwards, and it consumes at least one character unless the input is at its end. |
| Lexer.IdEnd | scheme.cc:113-116 | The identifier loop stops at the end of the maximal run of identifier characters. |
| Lexer.DigitsEnd | scheme.cc:120-125 | `is_ >> num` stops at the end of the maximal run of digits. |
| Lexer.LineEnd | scheme.cc:103-106 | `getline` stops just after the first newline, or at the end of the input. |
| Lexer.NextToken | scheme.cc:84-90 | The token comes from the pushback stack if it is non-empty, else from the stream. Every non-ERR token, and every popped token, strictly decreases what is left to read. |
| Lexer.NextAfterUnget | scheme.cc:72-74 | `unget` then `next` gives back the pushed token and the tokenizer as it was before the push (last in, first out). |
| Lexer.Tokenizer.constructor | scheme.cc:69 | A tokenizer starts at the start of its input with an empty pushback stack. |
| Lexer.Tokenizer.Unget | scheme.cc:72-74 | Pushes the token onto the stack and changes nothing else. |
| Lexer.Tokenizer.Next | scheme.cc:84-131 | The imperative `next` returns the token `NextToken` specifies and leaves the tokenizer in the state it specifies. |
| Lexer.Tokenizer.SkipLine | scheme.cc:103-107 | Discarding a comment line leaves the stream where `getline` does. |
| Lexer.Tokenizer.ReadIdentifier | scheme.cc:111-119 | The do-while loop gathers exactly the identifier run starting at the first character. |
| Lexer.Tokenizer.ReadNumber | scheme.cc:120-125 | The number read is the decimal value of the maximal digit run, and the stream is left after it. |
| Lexer.Tokenizer.ReadQuotedString | scheme.cc:133-148 | The string loop returns the text and the position that `ReadQuoted` specifies. |
| Reader.ParseSexp | scheme.cc:366-394 | Reading a datum never un-reads input, strictly consumes a pushed-back token, and allocates pair identities upwards. |
| Reader.ParseList | scheme.cc:396-427 | Reading the rest of a list never un-reads input and allocates pair identities upwards. |
| Reader.CloseDotted | scheme.cc:398-404 | Checking the `)` after a dotted tail never moves the position back, and the identities only grow. What it accepts is stated by `RoundTrip.ListDot` and `RoundTrip.DotWithoutClose`. |
| Reader.ListRest | scheme.cc:409-421 | Reading the rest of a list after its first element never moves the position back, and the identities only grow. What it builds is stated by `RoundTrip.ListOpen`, `RoundTrip.ListAtom` and `RoundTrip.ListAtomFails`. |
| Reader.ParseSexpIds | scheme.cc:366-394 | Every pair of a datum read from identity `ids` on is new: its identity lies between `ids` and the first identity the read left unused. No closure is read. |
| Reader.ParseListIds | scheme.cc:396-427 | As `ParseSexpIds`, for the rest of a list. |
| Reader.ListRestIds | scheme.cc:409-421 | The pair joining a list's first element and its rest keeps all identities in the range the list was read from. |
| Reader.Parser.constructor | scheme.cc:357 | A parser reads from the given tokenizer. |
| Reader.Parser.ReadSexp | scheme.cc:366-394 | The imperative `readSexp` returns the datum `ParseSexp` specifies and leaves the tokenizer where it says. |
| Reader.Parser.ReadSexpList | scheme.cc:396-427 | The imperative `readSexpList` returns what `ParseList` specifies. |
| Reader.Parser.ReadDottedTail | scheme.cc:398-404 | The dotted-tail branch of `readSexpList` returns what `CloseDotted` specifies. |
| Reader.Parser.ReadListRest | scheme.cc:409-421 | The element branches of `readSexpList` return and leave the tokenizer as `ListRest` specifies. |
| RoundTrip.ReadPrinted | scheme.cc:287-331 | Printing a printable value and reading the text back gives the same tree (up to fresh pair identities) and consumes the whole text. Printable values are built from non-negative ints, identifiers, booleans, strings without `"` or `\`, and proper or dotted lists of those. |
| RoundTrip.ParseShow | scheme.cc:366-427 | The printed form of a printable value, followed by a blank, a `)` or the end, reads back as a similar value and consumes exactly its characters. |
| RoundTrip.ParseElems | scheme.cc:409-422 | The elements of a printed list are read one by one into the same chain of pairs. |
| RoundTrip.ParseDotted | scheme.cc:398-405 | A printed dotted tail ` . x)` reads back as the tail `x`. |
| RoundTrip.LexAtom | scheme.cc:91-125 | The printed form of a printable atom is read back as one token of that atom. |
| RoundTrip.NatValue | scheme.cc:295-296 | Reading the decimal digits printed for a natural number gives the number back. |
| RoundTrip.ReadQuotedPrinted | scheme.cc:386-389 | `'x` reads as `(quote x)`. |
| RoundTrip.ListClose | scheme.cc:406-408 | A `)` ends a list with `()` and allocates nothing. |
| RoundTrip.ListOpen | scheme.cc:409-413 | A `(` inside a list reads a nested list as the element, then the rest with a dot allowed, and joins the two in one new pair. |
| RoundTrip.ListAtom | scheme.cc:414-422 | An atom token inside a list is pushed back and read as the element; then the rest is read with a dot allowed, and the two are joined in one new pair. |
| RoundTrip.ListAtomFails | scheme.cc:414-422 | When the rest after an atom element fails, the list fails the same way. |
| RoundTrip.ListDot | scheme.cc:398-404 | After `.` where a dot is allowed, a datum followed by `)` is the list's tail; nothing more is allocated. |
| RoundTrip.DotWithoutClose | scheme.cc:400-404 | After `. x`, any token other than `)` fails the closing assertion. |
| RoundTrip.StrayCloseIsErr | scheme.cc:390-393 | A `)` where a datum should start reads as the ERR value. |
| RoundTrip.DotAfterOpenRejected | scheme.cc:398-399 | A dot directly after `(` fails the `allowDot` assertion. |
| RoundTrip.SecondDatumAfterDotRejected | scheme.cc:400-404 | After `. x` only `)` may follow: `(a . b c)` fails the closing assertion. |
| Printer.NatToString | scheme.cc:295-296 | An integer prints as a non-empty run of decimal digits. |
| Printer.Print | scheme.cc:287-331 | The imperative printer, with its loop over the cdr chain, produces the external form `Show`: a space between elements and ` . x` before a non-`()` tail. |
| Values.ToBool | scheme.cc:206-209 | A value is false exactly when it is the boolean `#f`. |
| Values.Eq | scheme.cc:226-249 | `eq` is false across kinds. It compares symbols and strings by text, integers and booleans by value, and pairs and closures by identity. It is true for any two builtins, any two ERRs and any two `()`. |
| Values.EqIsEquivalence | scheme.cc:226-249 | `eq` is reflexive, symmetric and transitive. |
| Values.ListToVector | scheme.cc:338-343 | Copying a list by walking its cdr chain gives its elements in order, and fails on a list that does not end in `()`. |
| Values.ListFrom | scheme.cc:494-501 | The list built from the surplus arguments is `()` exactly when there are none. |
| Values.ListFromToSeq | scheme.cc:494-501 | The list built from a sequence has exactly that sequence as its elements. |
| Environment.FindFrame | scheme.cc:439-450 | A frame that `findFrame` returns binds the name. |
| Environment.FindFrameNearest | scheme.cc:439-450 | `findFrame` returns null exactly when no frame of the chain binds the name; otherwise it returns the innermost frame that does. |
| Environment.DefineOnlyCurrentFrame | scheme.cc:711-714 | A definition is then visible from its frame. It changes no other frame and no other name of its frame, and adds exactly the defined name. |
| Environment.BindFixedPositional | scheme.cc:479-489 | With distinct names, exactly the fixed parameters are bound, each to its positional argument or to `()` when the call is short. |
| Environment.BindFixedLastWins | scheme.cc:479-489 | A name that appears more than once among the parameters is bound to the argument of its last position, or to `()` if the call is short there. |
| Environment.RepeatedParameter | scheme.cc:479-489 | `(lambda (x x) …)` called with `a` and `b` binds only `x`, to `b`. |
| Environment.CallFrameBinds | scheme.cc:479-506 | The new frame binds exactly the parameters and the rest name. The rest parameter holds the surplus arguments in their original order, or `()` if there are none. |
| Analyzer.ParamNames | scheme.cc:720-733 | The fixed parameter names are the ids along the cdr chain. A final cdr that is not `()` must be a symbol (else the assertion fails) and becomes the rest name. |
| Analyzer.AnalyzeList | scheme.cc:747-751 | Analysing a sequence of forms succeeds only on a proper list, giving one expression per element. |
| Analyzer.AnalyzeListElementwise | scheme.cc:657-661 | Each element is analysed on its own, in order. |
| Analyzer.DefineSugar | scheme.cc:698-715 | `(define (f . params) . body)` compiles exactly as `(define f (lambda params . body))`. |
| Analyzer.DefineMacroIsDefine | scheme.cc:563-566 | `define-macro` compiles exactly as `define`. |
| Analyzer.LambdaAnalysesBody | scheme.cc:720-745 | A lambda analyses its body once, when the lambda itself is analysed; a body that cannot be analysed makes the lambda fail. |
| Builtins.Sum | scheme.cc:798-805 | `+` succeeds exactly when every argument is an integer or `()`. Any other argument has no defined `num()`. |
| Builtins.AddNil | scheme.cc:798-805 | `()` adds 0 on either side, because the `num_` of `schemeNil` (scheme.cc:251) is 0: `+` of `n` and `()` is `n`. |
| Builtins.SumAppend | scheme.cc:798-805 | `+` over a concatenation is the sum of `+` over the parts. |
| Builtins.SameComparesTail | scheme.cc:806-814 | `eq?`, whose range also covers `args[0]`, says whether every further argument is `eq` to the first, and is true on no arguments. |
| Builtins.CarCdrCons | scheme.cc:815-838 | `car` and `cdr` of a `cons` give back its two arguments; it is a pair and not `()`. |
| Semantics.Eval | scheme.cc:541-588 | Evaluation never reuses an identity, and keeps every frame identity below the next one to allocate. |
| Semantics.EvalAnd | scheme.cc:662-671 | As `Eval`, for the loop of an `and`. |
| Semantics.EvalOr | scheme.cc:679-688 | As `Eval`, for the loop of an `or`. |
| Semantics.EvalBody | scheme.cc:752-758 | As `Eval`, for a body. |
| Semantics.EvalArgs | scheme.cc:768-775 | As `Eval`; there is one value per argument expression. |
| Semantics.ApplyClosure | scheme.cc:475-509 | A closure call never reuses identities or creates a frame that clashes with an existing one. |
| Semantics.CallFunc | scheme.cc:511-525 | As `ApplyClosure`, for any call. |
| Semantics.RunBuiltin | scheme.cc:795-863 | As `ApplyClosure`, for a builtin. |
| Semantics.Expand | scheme.cc:616-629 | As `ApplyClosure`, for expansion. |
| Semantics.ExpandPass | scheme.cc:592-614 | As `ApplyClosure`, for one expansion pass. |
| Semantics.RunForm | scheme.cc:896-900 | As `Eval`, for one top-level datum (expand, analyse, run in the global frame). |
| Laws.VarIsNearestBinding | scheme.cc:548-557 | A symbol evaluates to its binding in the innermost frame that has one, or to ERR when none does; nothing changes. |
| Laws.DefineBindsInCurrentFrame | scheme.cc:711-714 | `define` evaluates the value, then binds the name in the current frame only, and returns `()`. |
| Laws.FindFrameOffChain | scheme.cc:439-450 | Writing a frame that is not on a chain does not change what the chain looks up. |
| Laws.CallIsLexical | scheme.cc:475-509 | The new frame's parent is the captured frame, not the caller's, and in a fresh store it is a new frame. Parameters bind positionally, and the rest name holds the surplus. Every other name is looked up in the captured environment. This needs the captured frames to be older than the counter, which every closure of a well-formed state satisfies. |
| Identities.FrameBelowChain | scheme.cc:439-450 | A frame is older than a bound exactly when every frame `findFrame` can visit from it is. |
| Identities.InitialWf | scheme.cc:910-913 | The starting state, with the global frame and an empty macro table, satisfies the identity invariant. |
| Identities.LookupBelow | scheme.cc:452-460 | In a well-formed state a lookup finds only values older than the counter. |
| Identities.DefineWf | scheme.cc:711-714 | Defining an older value in an older frame keeps the invariant. |
| Identities.CallEnvWf | scheme.cc:475-506 | The frame of a call and its rest list are allocated above everything older, and afterwards the state is well formed with the frame and the body below the counter. |
| Identities.AnalyzeBelow | scheme.cc:541-588 | Compiling a datum introduces no identity: the constants of the compiled expression lie below any bound the datum does. |
| Identities.AnalyzeListBelow | scheme.cc:747-751 | As `AnalyzeBelow`, for a list of forms. |
| Identities.LambdaOfBelow | scheme.cc:720-745 | As `AnalyzeBelow`, for a lambda's body. |
| Identities.AnalyzeLambdaBelow | scheme.cc:720-745 | As `AnalyzeBelow`, for `lambda`. |
| Identities.AnalyzeDefineBelow | scheme.cc:698-715 | As `AnalyzeBelow`, for `define`. |
| Identities.EvalKeeps | scheme.cc:541-588 | Evaluating an expression whose constants are older, in an older frame of a well-formed state, leaves a well-formed state and returns a value older than the new counter. |
| Identities.EvalAndKeeps | scheme.cc:662-671 | As `EvalKeeps`, for the loop of an `and`. |
| Identities.EvalOrKeeps | scheme.cc:679-688 | As `EvalKeeps`, for the loop of an `or`. |
| Identities.EvalBodyKeeps | scheme.cc:752-758 | As `EvalKeeps`, for a body. |
| Identities.EvalArgsKeeps | scheme.cc:768-775 | As `EvalKeeps`, for the arguments of a call: every value is older than the new counter. |
| Identities.ApplyClosureKeeps | scheme.cc:475-509 | Calling an older closure on older arguments keeps the invariant and returns an older value. |
| Identities.CallFuncKeeps | scheme.cc:511-525 | As `ApplyClosureKeeps`, for any call. |
| Identities.RunBuiltinKeeps | scheme.cc:795-863 | As `ApplyClosureKeeps`, for each builtin; `cons` stays well formed by advancing the counter. |
| Identities.ExpandKeeps | scheme.cc:616-629 | Expanding an older datum keeps the invariant and returns an older datum. |
| Identities.ExpandPassKeeps | scheme.cc:592-614 | As `ExpandKeeps`, for one pass, including the node it rebuilds. |
| Identities.RebuildKeeps | scheme.cc:608-609 | As `ExpandKeeps`, for a pair that is neither quoted nor a macro call: the passes over its car and cdr, and the new node joining them. |
| Identities.ReadIsNew | scheme.cc:366-427 | A datum read starting at the counter has only new pairs. Once the counter moves past them, the state is well formed and the datum lies below it. |
| Identities.RunFormKeeps | scheme.cc:896-900 | Expanding, analysing and running an older datum in the global frame keeps the invariant. |
| Laws.SurplusDropped | scheme.cc:479-491 | Without a rest parameter, surplus arguments are ignored. |
| Laws.CallNonProcedure | scheme.cc:520-523 | Calling anything but a builtin or a closure fails the assertion and changes nothing. |
| Laws.AndOnEvaluated | scheme.cc:662-671 | On any operands that all evaluate without failing, `and` gives `#f` at the first false value, else the last value (`last` when there are none). |
| Laws.OrOnEvaluated | scheme.cc:679-688 | On any operands that all evaluate without failing, `or` gives the first true value, else `#f`. |
| Laws.AndOfConsts | scheme.cc:662-671 | The constant-operand case of `AndOnEvaluated`: also the state is unchanged. |
| Laws.OrOfConsts | scheme.cc:679-688 | The constant-operand case of `OrOnEvaluated`: also the state is unchanged. |
| Laws.AndOrOnValues | scheme.cc:657-689 | The compiled `and`/`or` compute the reference `and`/`or`; an empty `and` gives ERR and an empty `or` gives `#f`. |
| Laws.AndShortCircuits | scheme.cc:664-668 | `and` stops at a false operand; what follows is not evaluated. |
| Laws.OrShortCircuits | scheme.cc:681-685 | `or` stops at a true operand and returns it; what follows is not evaluated. |
| Laws.BodyIsLastOfArgs | scheme.cc:752-758 | For any forms, a body evaluates every form in turn and returns the last value, or ERR when the body is empty (its `last` argument). The state it leaves is the one evaluating them as call arguments leaves. The first failure is the body's. |
| Laws.BodyReturnsLast | scheme.cc:752-758 | The constant case of `BodyIsLastOfArgs`: the last constant, with the state unchanged. |
| Laws.MacroifyRegistersClosures | scheme.cc:642-655 | `macroify` registers the named binding as a macro when it is a closure, returning `#t`. Otherwise it returns ERR and changes nothing. Frames and identities never change. |
| Laws.PassFindsMacroCalls | scheme.cc:592-614 | A pass with no macro call outside `quote` makes no substitution and returns a structurally equal tree, leaving frames and macros alone. A pass with a macro call reports a substitution (or fails). |
| Laws.ExpandReachesFixedPoint | scheme.cc:616-629 | A finished expansion contains no macro call outside `quote`. |
| Laws.ExpandWithoutMacros | scheme.cc:616-629 | With an empty macro table, expansion returns a structurally equal tree and changes no frame. |
| Laws.PassLeavesQuoteAndAtoms | scheme.cc:593-596 | A pass returns a `(quote …)` node and a non-pair unchanged. |
| Laws.PassAppliesMacro | scheme.cc:597-606 | A pair headed by a macro name is replaced by applying the macro to its unevaluated tail elements. |
| Laws.ApplySpreadsLastArgument | scheme.cc:851-862 | `apply` calls its first argument on the middle arguments followed by the elements of the last one. |
| Laws.ApplyRejectsEmptyList | scheme.cc:857-858 | `(apply f … '())` fails the `isCons` assertion. |
| Laws.ConsIsFresh | scheme.cc:815-818 | In a well-formed state, `cons` makes a pair of its two arguments with the next identity and keeps the state well formed. The pair is `eq?` to no pair bound in any frame and to no value below the counter. |
| Laws.ConsAfterEval | scheme.cc:815-818 | The pair any evaluation returns, a quoted datum included, is not `eq?` to a pair `cons` allocates afterwards. |
| Laws.GlobalFrameHoldsBuiltins | scheme.cc:795-863 | The global frame binds each builtin name of `setupEnv` to that builtin, and does not bind `-`. |
| Interp.Interpreter.constructor | scheme.cc:910-913 | The interpreter starts with the global frame filled with the builtins and an empty macro table. |
| Interp.Interpreter.FindFrame | scheme.cc:439-450 | The do-while walk up the parent links returns the frame `Environment.FindFrame` specifies. |
| Interp.Interpreter.Lookup | scheme.cc:452-460 | `lookup` returns the binding `Environment.Lookup` specifies. |
| Interp.Interpreter.BindArgs | scheme.cc:475-506 | The counted loop over the parameters, then the backwards accumulation of the rest list, build exactly the frame and allocations `Semantics.CallEnv` specifies. |
| Interp.Interpreter.Eval | scheme.cc:541-588 | Running a compiled expression in place gives `Semantics.Eval`'s value and new state. |
| Interp.Interpreter.EvalAnd | scheme.cc:662-671 | The loop of `and` gives `Semantics.EvalAnd`'s outcome. |
| Interp.Interpreter.EvalOr | scheme.cc:679-688 | The loop of `or` gives `Semantics.EvalOr`'s outcome. |
| Interp.Interpreter.EvalBody | scheme.cc:752-758 | The loop of a body gives `Semantics.EvalBody`'s outcome. |
| Interp.Interpreter.EvalArgs | scheme.cc:768-776 | The argument loop gives `Semantics.EvalArgs`'s outcome. |
| Interp.Interpreter.ApplyClosure | scheme.cc:475-509 | Applying a closure in place gives `Semantics.ApplyClosure`'s outcome. |
| Interp.Interpreter.CallFunc | scheme.cc:511-525 | `callFunc` gives `Semantics.CallFunc`'s outcome. |
| Interp.Interpreter.RunBuiltin | scheme.cc:795-863 | Each builtin gives `Semantics.RunBuiltin`'s outcome. |
| Interp.Interpreter.Expand | scheme.cc:616-629 | The do-while loop on `did_stuff` gives `Semantics.Expand`'s outcome. |
| Interp.Interpreter.ExpandPass | scheme.cc:592-614 | One recursive pass gives `Semantics.ExpandPass`'s result, substitution flag and state. |
| Interp.Interpreter.RunForm | scheme.cc:896-900 | Expanding, analysing and running one datum gives `Semantics.RunForm`'s outcome. |
| Scenarios.AnalyzeAdd | scheme.cc:761-767 | `(+ 1 2)` compiles to an application of the variable `+` to two constants. |
| Scenarios.EvalAdd | scheme.cc:798-805 | Run in the global frame, it gives 3 and changes nothing. |
| Scenarios.EvalIdentityCall | scheme.cc:475-509 | `((lambda (x) x) 7)` gives 7, in a new frame binding `x` to 7. |
| Scenarios.EvalShortCallAdds | scheme.cc:479-489 | `((lambda (x y) (+ x y)) 1)` gives 1: the missing `y` is bound to `()`, which `+` counts as 0. |

## Left out

- `interpret` and `main` (file opening, `import`, reading from standard input, the loop while the stream is good, echoing each form and result): these are I/O. One iteration of the loop, for a datum already read, is `Semantics.RunForm`.
- Output: `display` and `newline`, the expansion trace, and the diagnostics on the error stream. `display` and `newline` are modelled by the value they return, `()`.
- `envMath` and the `-` builtin: this code does not compile as written, so the global frame of the model has no `-`. The `+` that is used is the one installed afterwards.
- `SchemeType::isNum`: it names a value kind that does not exist, and nothing in the core calls it.
- `mapCar`: unused by the interpreter.
- `analyzeDefineMacro`: unreachable, because `define-macro` is dispatched to `analyzeDefine`.
- Builtins.Sum: integers are mathematical. The overflow of the source's `int` accumulation, which is undefined behaviour, is not modelled.
- Lexer.DigitsValue: the number token is read as a mathematical integer. The overflow and failbit of `is_ >> num` on a long digit run are not modelled.
- Lexer.Lex: the end of the input is the end of the string. The effect of the `unget()` that the identifier loop performs after reaching end of file is not modelled.
- Character classes are those of the C locale on ASCII. Other characters are neither spaces, letters nor digits.
- The driver loop that reads datums and runs them is not modelled (see `interpret` above). The model therefore does not promise that the reader is started at the state's counter and the counter then set to the first identity the reader left unused. `Identities.ReadIsNew` and `Identities.RunFormKeeps` prove that doing so keeps the invariant.
- `shared_ptr` ownership and lifetimes: only node identity is kept, and only where `eq` observes it (pairs, closures), plus identities for frames.
- Frames are not separate heap objects. All frame tables live in one store indexed by frame identity, and a frame value is its identity and parent link. Aliasing between frames is therefore expressed through identities, and no two frames can share a table.
- Semantics.CallFunc: a call consumes one unit of fuel, and running out is the `OutOfFuel` outcome. Behaviour beyond any fixed fuel bound, meaning a non-terminating recursion, is not modelled.
- Semantics.Expand: each pass consumes one unit of fuel, and so does each macro application. A non-terminating expansion is not modelled beyond the bound.
- Semantics.ExpandPass: C++ leaves unspecified the order in which the car and the cdr are expanded. The model expands the car first.
- A builtin value records which builtin it is, not a `std::function`; a compiled expression is a datatype, not a `std::function`.

