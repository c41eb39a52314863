# nonek front end in Dafny

nonek is a small teaching language. Its programs are split into
`Libraries`, `Functions` and `Execution` sections. The model covers the
front end in five parts:

- the tokenizer;
- the seventeen syntax-tree classes and the visitor's dispatch on the
  class name;
- the recursive-descent parser;
- the generator that checks a tree and translates it to Python;
- the exporter that draws a tree in Graphviz DOT.

Everything is an immutable value threaded through pure functions. The
lexer cursor `(pos, current_char, line_count)` is the `Lexical.Lexer`
record. The parser state is a position in the token stream. The Python
generator's mutable fields are the `PyGen.Gen` record. Each production or
`visit_<Class>` handler is a function that returns either the next state
or the error the source would raise. Python runtime crashes, such as
`KeyError`, `IndexError` or `None.isalpha()`, are `Crashed(...)` errors.

| file | module | models |
|---|---|---|
| `wrappers.dfy` | `Wrappers` | `Option` (Python's `None`) and `Result` |
| `chars.dfy` | `Chars` | ASCII character classes, `int(...)` and `str(...)` on decimals |
| `tokens.dfy` | `Tokens` | token kinds, token values, `str(token)` |
| `diagnostics.dfy` | `Diagnostics` | every error and crash of the front end |
| `lexer.dfy` | `Lexical` | `interpreter/lexical_analysis/lexer.py` |
| `ast.dfy` | `Ast` | the node classes and `NodeVisitor` of `interpreter/syntax_analysis/interpreter.py` |
| `parser.dfy` | `Parsing` | `interpreter/syntax_analysis/parser.py` |
| `pygen.dfy` | `PyGen` | `getastpython.py` |
| `dotgen.dfy` | `DotGen` | `getastdot.py` |

Some of the source's behaviour is surprising. The model keeps that
behaviour as written, and lemmas state it:

- **Token lookahead.** The parser reads a precomputed token stream,
  `Lexical.Lexemes`. The lexer is deterministic, so the i-th
  `get_next_token` call returns the i-th lexeme. This includes calls made
  by the look-ahead `is_bool_expr`, which restores the lexer afterwards.
- **Line numbers.** A node's line number is the lexer's line count when
  the node is built. That is the line reached after lexing the current
  lookahead token, not the line of the node's first token.
- **Non-terminating loops.** Four `while` loops of the parser repeat
  forever when `statement_list` consumes nothing. Examples are an INTEGER
  at the start of a statement, or EOF inside a block. Such a round is the
  `NoProgress` error.
- **Variable names.** `visit_VarDecl` records a name verbatim, `#x`
  included. Every lookup drops the first character. So `INT #x = 1`
  fails with an undefined `x`, and `INT x = 1` looks up the type of `""`.
  Parameters never reach the type table, so passing one to a user
  function crashes on the lookup.
- **Missing return.** A function without a `return` carries the
  placeholder `Var('')`, so it never passes the return-type check.

## Model

| member | source | states |
|---|---|---|
| Chars.NatToString | getastdot.py:21-24 | `str(n)` of a node counter is a non-empty digit string without a leading zero |
| Chars.DecimalRoundTrip | interpreter/lexical_analysis/lexer.py:23-28 | reading back the decimal text of `n` gives `n`, so printing and lexing an integer agree |
| Lexical.Start | interpreter/lexical_analysis/lexer.py:6-10 | construction succeeds exactly on non-empty text; the cursor is then at `text[0]` on line 1 |
| Lexical.Run | interpreter/lexical_analysis/lexer.py:23-28 | a collecting loop takes only characters of its class, takes at least one when the cursor is on one, and moves the cursor by exactly what it took |
| Lexical.RunSpan | interpreter/lexical_analysis/lexer.py:23-28 | the characters taken are exactly the longest prefix of the remaining text inside the class, and the cursor stops on a character outside it or at the end |
| Lexical.SkipWhitespace | interpreter/lexical_analysis/lexer.py:85-89 | skipping stops at a non-blank or the end, never moves back, and leaves the cursor alone at the end |
| Lexical.SkipSpan | interpreter/lexical_analysis/lexer.py:85-89 | only blanks are passed over, and the line count rises by exactly the number of newlines among them |
| Lexical.Integer | interpreter/lexical_analysis/lexer.py:23-28 | an INTEGER token moves the cursor and keeps the line |
| Lexical.IntegerRun | interpreter/lexical_analysis/lexer.py:23-28 | the INTEGER token's value is the decimal value of the longest digit run, and the cursor ends right after that run |
| Lexical.ClassifyWord | interpreter/lexical_analysis/lexer.py:38-73 | a word is ID exactly when it is not reserved, and every word that is not an operator word keeps its text as the value |
| Lexical.ClassifyWordKinds | interpreter/lexical_analysis/lexer.py:38-71 | exactly the six type names become TYPE, and exactly AND/OR/NOT/DIV/MOD/RETURN become operator kinds |
| Lexical.BooleanWordValues | interpreter/lexical_analysis/lexer.py:56-61 | AND, OR and NOT carry the values 'and', 'or' and 'not' |
| Lexical.ArithmeticWordValues | interpreter/lexical_analysis/lexer.py:62-71 | DIV, MOD and RETURN carry the values '//', '%' and 'return' |
| Lexical.Word | interpreter/lexical_analysis/lexer.py:30-37 | a word moves the cursor, keeps the line and carries text |
| Lexical.Gather | interpreter/lexical_analysis/lexer.py:31-34 | the gathering loop never moves back, moves on an alphanumeric character, and stays inside the text |
| Lexical.GatherRun | interpreter/lexical_analysis/lexer.py:31-73 | the loop appends the longest alphanumeric run to what it gathered, classifies the result, and stops right after the run |
| Lexical.WordRun | interpreter/lexical_analysis/lexer.py:30-73 | a word is the classified longest alphanumeric run from a letter, with the cursor right after it |
| Lexical.StringLit | interpreter/lexical_analysis/lexer.py:75-83 | a STRING token moves the cursor and keeps the line |
| Lexical.StringRun | interpreter/lexical_analysis/lexer.py:75-83 | a STRING token holds the text up to the next quote, which it never contains, and the cursor ends past the closing quote |
| Lexical.Sigil | interpreter/lexical_analysis/lexer.py:116-121 | a `#` token moves the cursor and keeps the line |
| Lexical.Operator | interpreter/lexical_analysis/lexer.py:105-111 | a two-character operator candidate moves the cursor when it succeeds |
| Lexical.Scan | interpreter/lexical_analysis/lexer.py:99-203 | every production after the blanks yields a non-EOF token that moves the cursor, or an error |
| Lexical.NextToken | interpreter/lexical_analysis/lexer.py:91-205 | at the end of input the result is EOF, again and again; otherwise it is EOF after blanks, an error, or a token that advances the cursor; the line never falls |
| Lexical.NextTokenSkipsWhitespace | interpreter/lexical_analysis/lexer.py:92-94 | lexing before or after the leading blanks gives the same result |
| Lexical.LexDispatch | interpreter/lexical_analysis/lexer.py:99-114 | a digit starts an INTEGER, a letter a word, a quote a STRING and `#` the sigil production |
| Lexical.SigilNext | interpreter/lexical_analysis/lexer.py:116-121 | a `#` is lexed by the sigil production |
| Lexical.LexSigilAtEnd | interpreter/lexical_analysis/lexer.py:116-119 | `#` as the last character crashes, since the next character is `None` |
| Lexical.SigilGlues | interpreter/lexical_analysis/lexer.py:116-121 | `#` before a letter glues the word after it to the sigil |
| Lexical.GluedRun | interpreter/lexical_analysis/lexer.py:119-121 | the glued token is the ID `#` followed by the word's token value, with the cursor right after the word |
| Lexical.LexSigilAlone | interpreter/lexical_analysis/lexer.py:116-121 | `#` before anything but a letter is the ID `#` on its own, one character long |
| Lexical.OperatorNext | interpreter/lexical_analysis/lexer.py:105-111 | an operator start character is lexed by the operator production |
| Lexical.LexMinus | interpreter/lexical_analysis/lexer.py:105-111 | `->` when `-` is followed by `>`, otherwise `-`, with the cursor after what was taken |
| Lexical.LexLess | interpreter/lexical_analysis/lexer.py:175-180 | `<=` when `<` is followed by `=`, otherwise `<` |
| Lexical.LexGreater | interpreter/lexical_analysis/lexer.py:182-187 | `>=` when `>` is followed by `=`, otherwise `>` |
| Lexical.LexEquals | interpreter/lexical_analysis/lexer.py:189-194 | `==` when `=` is followed by `=`, otherwise the assignment `=` |
| Lexical.LexBang | interpreter/lexical_analysis/lexer.py:196-201 | `!=` when `!` is followed by `=`; otherwise an error naming the character after `!` and the line |
| Lexical.LexPunctuation | interpreter/lexical_analysis/lexer.py:123-173 | `@ : , ; { } . + * / ( )` each become a one-character token of their own kind, with the cursor one step on |
| Lexical.LexRejects | interpreter/lexical_analysis/lexer.py:12-13 | any other character is an error naming that character and the current line |
| Lexical.Lexemes | interpreter/syntax_analysis/parser.py:7-9 | successive `get_next_token` results up to EOF or the first error; no lexeme is EOF, no line is below the start line, and the lines never fall along the stream |
| Lexical.LexemesFirst | interpreter/syntax_analysis/parser.py:15-19 | the stream begins with one `get_next_token` result and continues with the stream from the cursor after it |
| Ast.DispatchRoutes | interpreter/syntax_analysis/interpreter.py:124-127 | with all seventeen handlers, every node goes to the handler of its own class, and only an absent child (`NoneType`) is not found |
| Ast.HandlersForNodeClasses | interpreter/syntax_analysis/interpreter.py:124-127 | a visitor with a `visit_<class>` method for each of the seventeen node classes, and none named after `NoneType`, handles every node and no empty slot |
| Ast.Wrap | interpreter/syntax_analysis/interpreter.py:6-9 | a node's list of children becomes its child slots, one slot per child, in order |
| Ast.SizeOfChildren | getastdot.py:21-30 | a tree holds its root and the nodes in its child slots |
| Parsing.Eat | interpreter/syntax_analysis/parser.py:11-19 | a wrong kind is an error naming the expected kind, the found kind and the line; the right kind advances one token, or stays at EOF, or fails where the lexer fails |
| Parsing.Begin | interpreter/syntax_analysis/parser.py:7-9 | empty text crashes; otherwise the parser starts at the lexer's first token |
| Parsing.Factor | interpreter/syntax_analysis/parser.py:304-329 | an integer gives a `Num` and a name a `Var`; on any other token except `(` and `@` nothing is built or consumed |
| Parsing.Term | interpreter/syntax_analysis/parser.py:331-352 | a term stops only at a non-multiplicative token |
| Parsing.TermLoop | interpreter/syntax_analysis/parser.py:337-350 | the loop runs while a multiplicative operator follows, and returns its left operand unchanged when none does |
| Parsing.TermLoopNestsLeft | interpreter/syntax_analysis/parser.py:337-350 | each `*`, `/`, DIV or MOD builds a `BinOp` whose left operand is everything parsed before it, so the result is the starting operand under left-nested multiplicative operators |
| Parsing.TermNestsLeft | interpreter/syntax_analysis/parser.py:331-352 | a term is its first factor under left-nested multiplicative operators |
| Parsing.Expr | interpreter/syntax_analysis/parser.py:354-371 | an expression stops only at a token that is neither additive nor multiplicative |
| Parsing.ExprLoop | interpreter/syntax_analysis/parser.py:360-369 | the loop continues only on `+` or `-`, and returns its left operand unchanged otherwise |
| Parsing.ExprLoopNestsRight | interpreter/syntax_analysis/parser.py:360-369 | after `+` or `-` the term before it is the left operand and the whole following `expr` the right operand of one `BinOp`, and the loop then ends |
| Parsing.FunctionCall | interpreter/syntax_analysis/parser.py:259-289 | a call starts with `@`, otherwise it is an error naming MONKEY; it consumes input and builds a `FunCall` |
| Parsing.CallTail | interpreter/syntax_analysis/parser.py:263-288 | the library and function names are the IDs on either side of `.`, and every argument is a `Var` |
| Parsing.Name | interpreter/syntax_analysis/parser.py:264-265 | a name is the ID token's text, and anything else is an error naming ID |
| Parsing.CallArgs | interpreter/syntax_analysis/parser.py:271-284 | the arguments up to `)` all become `Var` nodes, and `)` right away gives none |
| Parsing.CallArgsLayout | interpreter/syntax_analysis/parser.py:271-284 | each argument is the `Var` of its own STRING, INTEGER or ID token, in source order, with that token's value and line; nothing but single commas lies between arguments and after the last, and the list ends at `)` |
| Parsing.BoolExpr | interpreter/syntax_analysis/parser.py:382-391 | a boolean expression is a binary or a unary operator node |
| Parsing.BoolComparison | interpreter/syntax_analysis/parser.py:393-404 | a comparison is a `BinOp` whose operator is one of `< <= > >= == !=` |
| Parsing.BoolLogical | interpreter/syntax_analysis/parser.py:406-434 | a logical expression stops only at a token other than AND and OR |
| Parsing.Bracketed | interpreter/syntax_analysis/parser.py:413-416 | `( comparison )` consumes input and yields the comparison |
| Parsing.Opened | interpreter/syntax_analysis/parser.py:413-414 | `(` and a comparison consume input and yield a comparison operator node |
| Parsing.LogicalLoop | interpreter/syntax_analysis/parser.py:418-432 | the loop continues only on AND or OR, and returns the node built so far unchanged otherwise |
| Parsing.LogicalOperand | interpreter/syntax_analysis/parser.py:422-431 | an operand after AND/OR is `not` around a comparison, or a bare comparison, built at the line when it ends |
| Parsing.UnarExpr | interpreter/syntax_analysis/parser.py:436-446 | `not ( ... )` gives a `UnOp` holding the `not` token |
| Parsing.IsBoolExpr | interpreter/syntax_analysis/parser.py:449-462 | a stop token as the current token answers false at once |
| Parsing.IsBoolExprDecides | interpreter/syntax_analysis/parser.py:449-462 | the look-ahead answers true exactly when a boolean operator comes before the first ASSIGN, `@`, EOF, `}`, COND or LOOP; it fails only where the token stream fails |
| Parsing.BoolBeforeStopFirst | interpreter/syntax_analysis/parser.py:455-461 | the first upcoming kind decides the scan, or passes it on to the rest |
| Parsing.UpcomingStep | interpreter/syntax_analysis/parser.py:15-19 | eating the current token drops exactly the first upcoming kind |
| Parsing.StatementList | interpreter/syntax_analysis/parser.py:148-174 | a statement starts with TYPE, ID, COND, LOOP or `@` and then consumes input; any other token gives no statement |
| Parsing.BlockLoop | interpreter/syntax_analysis/parser.py:86-89 | statements are collected until a stop token; a round that consumes nothing is the non-terminating loop |
| Parsing.TypeNode | interpreter/syntax_analysis/parser.py:184-185 | a `Type` node holds the TYPE token's text and the line before the eat |
| Parsing.VarDeclarationList | interpreter/syntax_analysis/parser.py:176-191 | declarations continue while TYPE is current |
| Parsing.VarDeclaration | interpreter/syntax_analysis/parser.py:291-302 | a `VarDecl`, followed by an `Assign` to the same variable exactly when `=` follows |
| Parsing.AssignLoop | interpreter/syntax_analysis/parser.py:161-165 | every assignment in a chain after a name has that name as its target |
| Parsing.VarAssignment | interpreter/syntax_analysis/parser.py:193-206 | an assignment consumes input and builds an `Assign` to its target at the line where it ends |
| Parsing.RightHandSide | interpreter/syntax_analysis/parser.py:199-206 | boolean when the look-ahead says so, else a `String` for a STRING, else a call for `@`, and otherwise exactly the arithmetic expression parse |
| Parsing.ConditionStatement | interpreter/syntax_analysis/parser.py:208-233 | a condition is a `Cond` with a non-empty statement block |
| Parsing.Opening | interpreter/syntax_analysis/parser.py:213-215 | a keyword, `:` and `(` consume input |
| Parsing.LoopStatement | interpreter/syntax_analysis/parser.py:235-257 | a loop is a `Loop` with a non-empty statement block |
| Parsing.Guarded | interpreter/syntax_analysis/parser.py:217-233 | the node holds the parsed condition and a non-empty `Stmts` block |
| Parsing.Block | interpreter/syntax_analysis/parser.py:220-228 | a block that succeeds is non-empty and leaves `}` current |
| Parsing.ParseProgram | interpreter/syntax_analysis/parser.py:21-40 | parsing stops at the first token that begins no section, EOF or not, with a `Program` |
| Parsing.Sections | interpreter/syntax_analysis/parser.py:29-38 | sections in any number and order; no section keyword gives no children |
| Parsing.SectionsOfChain | interpreter/syntax_analysis/parser.py:29-38 | consecutive sections that end before a token beginning no section give the loop's result: their contents concatenated in source order |
| Parsing.ChainOfSections | interpreter/syntax_analysis/parser.py:29-38 | every successful loop is such a chain of consecutive sections, its children the sections' contents in order |
| Parsing.ProgramOfChain | interpreter/syntax_analysis/parser.py:21-40 | the `Program` holds the sections' contents in source order, at the line of the token where parsing stops |
| Parsing.Section | interpreter/syntax_analysis/parser.py:48-91 | a libraries section holds only `Library` nodes and a functions section only `FunImpl` nodes |
| Parsing.LibraryList | interpreter/syntax_analysis/parser.py:53-56 | entries continue while `->` is current, and all are `Library` nodes |
| Parsing.IncludeLibrary | interpreter/syntax_analysis/parser.py:59-67 | `-> name` gives a `Library` at the line after the name |
| Parsing.FunctionList | interpreter/syntax_analysis/parser.py:69-79 | implementations continue until `}`, and all are `FunImpl` nodes |
| Parsing.FunctionImplementation | interpreter/syntax_analysis/parser.py:93-127 | an implementation consumes input and builds a `FunImpl` |
| Parsing.Signature | interpreter/syntax_analysis/parser.py:100-109 | the `FunImpl` has the name read after `@` |
| Parsing.FunctionBody | interpreter/syntax_analysis/parser.py:111-125 | the `Return` holds the declared return type, and the node takes its name, parameters and line as stated |
| Parsing.ReturnStatement | interpreter/syntax_analysis/parser.py:116-122 | without RETURN the result is `Var('')` at line -1 with nothing consumed; with it the `Return` takes the line before RETURN is eaten |
| Parsing.ArgumentList | interpreter/syntax_analysis/parser.py:128-146 | parameters continue until `)`, and every one is a `VarDecl` of a `Type` and a `Var` |
| Parsing.Parameter | interpreter/syntax_analysis/parser.py:135-144 | one parameter consumes input and is a `VarDecl` of a `Type` and a `Var` |
| Parsing.Parse | interpreter/syntax_analysis/parser.py:464-465 | empty text crashes; a successful parse gives a `Program` |
| Parsing.AdditiveNestsRight | interpreter/syntax_analysis/parser.py:360-369 | `#a - #b + #c` parses as `#a - (#b + #c)`, with both nodes at the line reached after the chain |
| Parsing.MultiplicativeNestsLeft | interpreter/syntax_analysis/parser.py:337-350 | `#a * #b / #c` parses as `(#a * #b) / #c` |
| Parsing.EmptyBlockRejected | interpreter/syntax_analysis/parser.py:220-228 | `{ }` is rejected with "Expected block" at the line after `}` |
| Parsing.BareNameBlockRejected | interpreter/syntax_analysis/parser.py:159-165 | `{ #x }` is rejected too: the name is consumed but yields no statement |
| Parsing.DeclarationTakesOnlyExpr | interpreter/syntax_analysis/parser.py:291-302 | a string after `TYPE x =` gives an `Assign` with no expression and is left unconsumed |
| Parsing.CallArgumentsInOrder | interpreter/syntax_analysis/parser.py:259-289 | `@Stdio.out('hi' 3, #x)` gives a `FunCall` of three `Var` arguments in order, commas optional |
| Parsing.SampleArguments | interpreter/syntax_analysis/parser.py:271-284 | the sample call's arguments become three `Var` nodes in source order, each with its own line |
| Parsing.SampleTail | interpreter/syntax_analysis/parser.py:271-284 | an INTEGER argument followed by a comma and a name gives two `Var` nodes |
| Parsing.SampleLast | interpreter/syntax_analysis/parser.py:271-284 | a name right before `)` gives one `Var` and leaves `)` current |
| PyGen.Indent | getastpython.py:41-45 | the indentation is exactly `num_tabs` tab characters |
| PyGen.Visit | getastpython.py:58-357 | a successful visit keeps the indentation, extends the output, imports and functions, and keeps the tables consistent; an empty slot has no handler |
| PyGen.VisitDispatches | interpreter/syntax_analysis/interpreter.py:123-130 | the generator, with one handler per node class, fails exactly where `visit` finds no handler, with its "Not found" error, and otherwise runs the handler of the node's own class |
| PyGen.VisitNode | getastpython.py:58-357 | every handler keeps the indentation, extends the output, imports and defined functions, and keeps the tables consistent |
| PyGen.VisitEach | getastpython.py:58-60 | visiting a program's children in order preserves the same invariant |
| PyGen.VisitStmts | getastpython.py:314-317 | visiting statements in order preserves the same invariant, and the first statement is preceded by the current indentation |
| PyGen.VisitGuarded | getastpython.py:260-276 | a condition or loop leaves `num_tabs` as it found it |
| PyGen.VisitReturn | getastpython.py:253-258 | the declared return type is recorded for the current function |
| PyGen.ReturnEmits | getastpython.py:253-258 | a successful `return` of a variable emits a new line at the current indentation, `return `, the variable's text and a line break, sets the current function's return type, and changes nothing else |
| PyGen.VisitFunImpl | getastpython.py:225-251 | a function name already defined is a duplicate; on success the name is defined and the scope is back to 'main' |
| PyGen.FunImplHeader | getastpython.py:225-239 | a successful definition emits `def <name>(`, the parameter names separated by `, `, and `):` before its body |
| PyGen.Entered | getastpython.py:226-231 | `def <name>(` is emitted at the current indentation, the scope switches to the function with an empty memory, and the name is registered with an empty record and an empty type table before its parameters and body are visited |
| PyGen.FreshScopeAcceptsAnyName | getastpython.py:228-229 | in a function just entered, any declaration is accepted whatever earlier scopes hold, so a name may be declared again in another function |
| PyGen.SignatureRecorded | getastpython.py:226-231 | after the parameters, the `def` line holds the names separated by `, `; the function's record holds the parameter types and names in order and counts them; its memory holds exactly the parameter names |
| PyGen.Registered | getastpython.py:47-56 | a registered function has an empty record (no parameters, count 0) and an empty type table |
| PyGen.FunImplBody | getastpython.py:240-251 | after the body the indentation is restored and the scope is 'main' |
| PyGen.ReturnCheck | getastpython.py:245-251 | the check passes exactly when the recorded return type equals the returned variable's declared type, and then only the scope changes |
| PyGen.VisitAssign | getastpython.py:288-300 | an assignment without a value fails |
| PyGen.VisitBinOp | getastpython.py:339-345 | an operator with a missing operand fails |
| PyGen.VisitFunCall | getastpython.py:65-223 | a library other than 'This' that was not imported is an error; an imported library with no template for the function emits nothing and raises nothing |
| PyGen.Fill | getastpython.py:69-199 | a template naming an argument the call lacks fails |
| PyGen.FillRenders | getastpython.py:69-199 | when every argument a template names exists and is accepted, the template emits its pieces in order: fixed text, the indentation, and each argument as `visit_Var` prints it |
| PyGen.FillAccepted | getastpython.py:69-199 | with `Var` arguments a template fills in only when every argument it names exists and is accepted |
| PyGen.LibraryCallRenders | getastpython.py:65-199 | an imported library call with a template emits that template's rendering when its arguments are accepted |
| PyGen.VisitUserCall | getastpython.py:201-223 | an undefined function and a wrong argument count are errors; a defined function never fails as undefined, and a consistent record never runs out of parameter types |
| PyGen.UserArgs | getastpython.py:210-221 | checking the arguments never reports an undefined function, and runs out of parameter types only when the record is short |
| PyGen.UserArgsTypesAgree | getastpython.py:211-221 | a successful check means every argument has, in the current scope, the declared type of its parameter and is itself declared |
| PyGen.UserArgsAccepts | getastpython.py:211-222 | conversely such arguments pass the check, emitted in order with `, ` between neighbours and none after the last |
| PyGen.UserArgsFirstMismatch | getastpython.py:213-218 | the first argument whose declared type differs from its parameter's stops the check with a type error naming the function, the expected type, the found type and the line |
| PyGen.VisitUserCallTypesAgree | getastpython.py:201-223 | a user call with `Var` arguments succeeds only if the function is defined, the count matches, and every argument agrees with its parameter's type and is declared |
| PyGen.VisitUserCallEmits | getastpython.py:201-223 | conversely such a call emits `f(`, the arguments separated by `, `, then `)` and a line break |
| PyGen.VisitUserCallMismatch | getastpython.py:201-218 | a defined call of the right arity fails at its first argument whose declared type differs from its parameter's, with that type error |
| PyGen.VisitVar | getastpython.py:323-333 | a `#name` succeeds exactly when `name` is in the current scope's memory and is emitted without the sigil; every other value is emitted single-quoted |
| PyGen.VisitVarNode | getastpython.py:323-333 | a `Var` node is accepted exactly when it is a literal or a `#name` declared in the current scope, and then only its text is emitted |
| PyGen.VisitVarDecl | getastpython.py:278-286 | a redeclaration fails exactly when the name is already in the current scope; otherwise the name joins that scope's memory and type table and nothing is emitted |
| PyGen.VisitArgs | getastpython.py:302-312 | each parameter adds one to the function's parameter count, and the type tables are untouched |
| PyGen.VisitArgsRecords | getastpython.py:302-312 | registering the parameters emits their names separated by `, `, appends each type and name in order to the current function's record, and appends each name to the current scope's memory |
| PyGen.VisitArgsStep | getastpython.py:304-309 | a registered parameter is a declaration of a typed variable in a function that has a record |
| PyGen.Generate | getastpython.py:359-362 | the generated program starts with the header |
| PyGen.Compile | getastpython.py:359-362 | empty source crashes; a generated program starts with the header |
| PyGen.FillIgnoresLibs | getastpython.py:69-199 | filling a template with `Var` arguments does not depend on the import list |
| PyGen.UserArgsIgnoreLibs | getastpython.py:210-221 | checking a user call's `Var` arguments does not depend on the import list |
| PyGen.RepeatedImportChangesNoCall | getastpython.py:62-67 | importing an imported library again changes the outcome of no call |
| PyGen.StdioOutPrints | getastpython.py:76-81 | `Stdio.out` emits a newline, the indentation, `print(`, its argument and `)` |
| PyGen.SelfCallPassesDefinedCheck | getastpython.py:225-233 | a call of a function from its own body never fails as undefined |
| PyGen.UndeclaredArgumentCrashes | getastpython.py:213-216 | passing a name with no declared type, such as a parameter, to a user function crashes on the lookup |
| PyGen.DeclarationThenAssignment | getastpython.py:314-317 | statements run in sequence, so a declaration's state is the next assignment's |
| PyGen.PlainTargetLooksUpTail | getastpython.py:288-294 | an assignment to a name without the sigil looks up the name minus its first character |
| PyGen.InitializedDeclarationLooksUpTail | getastpython.py:278-294 | `TYPE s = e` without the sigil records `s` but fails looking up `s` minus its first character |
| PyGen.SigilTargetUndefined | getastpython.py:323-329 | an assignment to `#s` with `s` not in memory fails as an undefined variable |
| PyGen.SigilDeclarationUndefined | getastpython.py:278-329 | `TYPE #s = e` records `#s` and then fails as an undefined `s` |
| PyGen.MissingReturnFails | getastpython.py:245-251 | a function without a return statement never passes the return check |
| DotGen.Walk | getastdot.py:21-223 | a walk fails exactly when some child slot is empty, and then for lack of a handler for `NoneType`; it declares the node first under the number `next`, and it uses one number per node |
| DotGen.WalkDispatches | interpreter/syntax_analysis/interpreter.py:123-130 | the exporter, with a handler per node class and one for `FunDecl`, fails at the root exactly where `visit` finds no handler, with its error; below a present node it fails only on an empty slot |
| DotGen.WalkNode | getastdot.py:21-30 | a node's drawing is its own line followed by its child slots' drawing, numbered from the next number |
| DotGen.WalkSlotsCons | getastdot.py:27-30 | non-empty slots draw the first subtree, the edge from the parent to it, then the other slots |
| DotGen.WalkSlots | getastdot.py:27-30 | the slots succeed exactly when all are complete, and use one number per node they hold |
| DotGen.Export | getastdot.py:225-228 | the output is the header, the body lines in emission order and `}`; the only error is a missing handler |
| DotGen.ExportText | getastdot.py:225-228 | empty source crashes |
| DotGen.Range | getastdot.py:11 | a range from `a` to `b` has `b - a` numbers |
| DotGen.SplitLines | getastdot.py:21-223 | node numbers and edge counts add up over concatenated output |
| DotGen.WalkIds | getastdot.py:21-24 | a subtree is numbered consecutively in pre-order from its own root's number |
| DotGen.SlotsIds | getastdot.py:27-30 | the child slots are numbered consecutively from the first child |
| DotGen.JoinIds | getastdot.py:27-30 | two consecutive numberings joined by an edge line form one |
| DotGen.WalkEdges | getastdot.py:21-223 | a subtree draws one edge fewer than it has nodes |
| DotGen.SlotsEdges | getastdot.py:27-30 | the child slots draw one edge per child |
| DotGen.WalkEdgesForward | getastdot.py:21-223 | every edge goes from a subtree node to a later-numbered subtree node |
| DotGen.SlotsEdgesForward | getastdot.py:27-30 | every edge of the slots leaves the parent or a node inside them and enters a later node |
| DotGen.RangeSplit | getastdot.py:11 | consecutive ranges join into one |
| DotGen.RangeAt | getastdot.py:11 | the i-th number of a range from `a` is `a + i` |
| DotGen.RangeIndices | getastdot.py:11 | every number of a range sits at its offset from the start, so the numbers are distinct and increasing |
| DotGen.EdgesWithinTail | getastdot.py:21-24 | a node line in front of a drawing adds no edge |
| DotGen.JoinEdgesWithin | getastdot.py:27-30 | a subtree, the edge to its root, and the other slots keep every edge inside the slots' bounds |
| DotGen.ExportNumbering | getastdot.py:11-30 | the node lines are numbered `1`, `2`, ..., one per node of the tree in emission order; there is one edge fewer than nodes; every edge points from a smaller to a larger number among them |

## Left out

- `interpreter/lexical_analysis/tokenType.py` and `token.py` are not part of this model. The token kinds are named as the lexer and parser use them. A kind prints as its own name, `str(token)` is assumed to be `Token(KIND, value)`, and `tokenType.INT` is assumed to be the text `INT`.
- `util.py` is not part of this model. `@restorable` is taken to save and restore the lexer and the current token around `is_bool_expr`, as its docstring says. So `Parsing.IsBoolExpr` returns only the answer, and the caller keeps its own state.
- Character classes are ASCII: the model's letters, digits and spaces are exactly the ASCII characters Python's `isalpha`, `isdigit` and `isspace` accept; the non-ASCII characters Python also accepts are not modelled.
- Exception message texts are not modelled. Each error carries the names, kinds and line its message reports.
- The `main()` functions of `getastpython.py` and `getastdot.py` only read and write files and print. They are left out, as is `geterate_trees.py`, which only lists directories and runs shell commands.
- The dedented header strings are constants.
- `check_function` is never called and is left out.
- Dead code is left out: the `***` comment branch of `_id` (a word never holds `*`), the second `#` branch of `get_next_token`, `visit_FunDecl` of the DOT exporter (no such class exists), and the unreachable `else` errors of `term` and `expr`. The `-` arm of the Python generator's `visit_UnOp` is modelled but is never reached from parsed input.
- `BinOp` stores its operator once, as `op`; the source keeps the same token under two names, `op` and `token`. `Num.value` is the token's value, given by `Node.NumValue`.
- Sharing of one `Var` object between a `VarDecl` and its `Assign` is not modelled. Neither visitor depends on object identity, except the Python generator's "last argument" tests `child != node.args_nodes[-1]` and `child != node.args[-1]` (getastpython.py:221 and 311); the parser builds a fresh node per argument, so these are modelled as "not the last index".
- Parameter names that are not text cannot come from the parser. For those, the generator's final `join` would fail; the model emits the printed value instead.
- Parsing.Term, Parsing.Expr, Parsing.BoolExpr, Parsing.BoolLogical, Parsing.ConditionStatement, Parsing.LoopStatement, Parsing.FunctionImplementation: the contracts state the node's shape and where parsing stops, not the whole tree. The lemmas `TermNestsLeft`, `TermLoopNestsLeft` and `ExprLoopNestsRight` state how operators nest for every input, and the concrete lemmas `AdditiveNestsRight`, `MultiplicativeNestsLeft` and `CallArgumentsInOrder` fix complete trees for sample inputs.
- Lexical.Integer, Lexical.Word, Lexical.StringLit, Lexical.Sigil, Lexical.Operator, Lexical.Scan: these state only that the cursor moves. The exact tokens are in `IntegerRun`, `WordRun`, `StringRun`, `SigilGlues`, `GluedRun`, `LexSigilAlone`, `LexSigilAtEnd`, `LexMinus`, `LexLess`, `LexGreater`, `LexEquals`, `LexBang` and `LexDispatch`.
- PyGen.VisitFunCall: the contract states the import check and the unknown-template case. The emitted text is in `LibraryCallRenders` for library calls, with the templates as data in `PyGen.Template`, and in `VisitUserCallEmits` for user calls.
- PyGen.VisitAssign, PyGen.VisitBinOp, PyGen.VisitGuarded: the contracts state the invariant every visit keeps and the error cases, not the emitted text.
- PyGen.VisitStmts: states the indentation before the first statement only, not the indentation before each later statement nor the statements' own text.
- PyGen.VisitReturn, PyGen.VisitFunImpl, PyGen.VisitArgs: their own contracts state the tables, not the whole emitted text; that is stated by PyGen.ReturnEmits, PyGen.FunImplHeader and PyGen.VisitArgsRecords, and by nothing for the body of a function after its `def` line.
- DotGen.ExportText: only the empty-source crash is stated here. Everything else follows from `Parsing.Parse` and `DotGen.Export`.
- Python evaluation order decides which error is raised first only on trees the parser never builds, such as a `Return` whose type child is not a `Type`. The model fixes one order for those.
