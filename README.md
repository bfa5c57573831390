# B-parser front end in Dafny

This project models the front end of B-parser, a parser for a small C-like language written in C++. The front end has six parts:

- **Lexer** (`Lexing`). It reads one token per call. It keeps a cursor and a line counter over the source text, skips comments, cuts out string literals and decides fixed tokens with one character of lookahead.
- **Token and syntax-tree data model** (`Tokens`, `Expressions`, `Statements`, `Program`, `Fragments`). These are tagged records. Their constructors refuse a payload that does not match the tag.
- **Grammar table** (`Grammar`). It maps a state and a lookahead kind to an action, with a wildcard entry per state.
- **Push parser** (`Parsing`). It is fed one token at a time. It keeps a state and three stacks: fragments, return states and per-frame fragment counts.
- **Reducer** (`Reducer`). It turns the fragments of a finished frame, which arrive most recent first, back into source order and builds one syntax-tree node.
- **Precedence resolver** (`Resolver`). It flattens an expression tree in parse order and rebuilds it with an operator stack and an output stack.

The code is split between two forms:

- **Pure functions.** Everything the source computes without mutation. This covers token and node construction, the table, the reducer and the flattening.
- **Classes.** The code that changes state step by step:
  - `Lexing.Lexer` holds the text, the cursor and the line. `Next` runs the character loop of `next()`.
  - `Parsing.Parser` holds the three stacks and the state. `Feed` runs the action loop of `feed()`.
  - `Statements.StatementCell` models the in-place setters of a statement.
  - The operator/output-stack loop of `rpn_ast` is the method `Resolver.RpnAst`.

Each of those methods is proved equal to a specification function (`NextToken`, `Run`, `ShuntingYard`), and the lemmas are stated about those functions.

Three places in the source do not do what they evidently mean to do (see "## Findings"). The model therefore runs in two readings, chosen by a `Variants.Variant` value that the parser, the table lookup, the reducer and the resolver all take:

- **`AsWritten`** is the code as it stands at these three places: the table entry of state 49, `reduce_library` with its `pop_front`, and `rpn_traverse_tree`.
- **`Corrected`** changes only those three places.

A `Parsing.Parser` is built for one reading and keeps it. The lemmas say which reading they are about, or hold in both.

## Model

| member | source | states |
|---|---|---|
| Tokens.DefaultToken | token.h:31 | The default token is end of file on line 0, with no payload. |
| Tokens.MakeToken | token.h:32-38 | Succeeds exactly for kinds other than identifier, string literal and integer literal. Identifier and string literal fail with "string value required", integer literal with "integer value required". A token built this way keeps kind and line and carries no payload. |
| Tokens.MakeStrToken | token.h:39-45 | Succeeds exactly for identifier and string literal, and then carries the given string. |
| Tokens.MakeIntToken | token.h:46-55 | Succeeds exactly for integer literal, and then carries the given integer. |
| Tokens.IntToken | token.h:56-59 | Always an integer-literal token carrying the value. |
| Lexing.TokenKindOfIsTableLookup | lexer.h:16-25 | The character-by-character kind decision agrees with the token table on every string: it gives a kind exactly for the table's keys, and the table's kind for each. |
| Lexing.OneCharLookup | lexer.h:16-25 | For one-character strings, the lookup agrees with the table in both directions. |
| Lexing.TwoCharLookup | lexer.h:16-25 | For two-character strings, the lookup agrees with the table in both directions. |
| Lexing.LongLookup | lexer.h:16-25 | For strings of three or more characters, only `var`, `while` and `return` are in the table. |
| Lexing.ReservedIsReservedWords | lexer.h:41-46 | A symbol is reserved exactly when it is one of the four reserved words. |
| Lexing.TableKindsCarryNoPayload | lexer.h:16-25 | The table never yields the wildcard kind (-1), identifier, either literal, or end of file. |
| Lexing.FindChar | lexer.h:127 | `find`: the first index at or after the start holding the character, or none when no later index holds it. |
| Lexing.FindCommentEnd | lexer.h:112 | The first star-slash at or after the start, or none when there is no later one. |
| Lexing.WordToken | lexer.h:144-151 | An all-digit symbol becomes an integer literal with its decimal value. Any other symbol becomes an identifier carrying the symbol. |
| Lexing.FixedToken | lexer.h:139-141 | A table symbol becomes a payload-free token of its table kind, never the wildcard. |
| Lexing.Step | lexer.h:97-175 | One pass of the loop either ends the call at or after the cursor or moves the cursor forward. An identifier or integer literal it emits is the word token of a pending symbol that is not in the table, with the current character left unread. A keyword or operator it emits is the table token of the longest of the symbol and the symbol with the current character, and only that longer one consumes the character. |
| Lexing.NextToken | lexer.h:93-177 | The cursor never moves back, and it moves forward whenever text remains. The line never goes back. A returned token is never the wildcard, carries the payload its kind calls for, and bears the current line. |
| Lexing.EndFixedToken | lexer.h:134-141 | A finished table symbol is emitted, taking the current character along exactly when the two make a table token. |
| Lexing.SkipComment | lexer.h:103-120 | A comment pass either ends the call where it stands (end of file, or an unterminated block comment) or moves past the comment with an empty symbol. |
| Lexing.CutStringLiteral | lexer.h:123-131 | A string-literal pass always ends the call, at or after the cursor. |
| Lexing.StepAccumulates | lexer.h:171-174 | A pass that only moves one character appends that character to the symbol unless it is whitespace. It adds one to the line exactly for a newline. The pending symbol never holds whitespace. |
| Lexing.ScanWellFormed | lexer.h:93-177 | The line never decreases. A token the lexer returns is never the wildcard, carries the payload its kind calls for, and bears the current line. |
| Lexing.SkipWhitespace | lexer.h:171-174 | Leading whitespace is skipped, and each newline in it adds one to the line. |
| Lexing.ScanWord | lexer.h:134-151 | A word ended by whitespace or a one-character token gives, without consuming the delimiter, a keyword if it is reserved, else an integer literal if all digits, else an identifier. |
| Lexing.WordThenDelimiterIsNoToken | lexer.h:134-136 | A word followed by its delimiter is never a table token, so the delimiter is not taken along. |
| Lexing.ScanOperator | lexer.h:134-141 | After a one-character token, the next character is taken along exactly when the pair is a table token. |
| Lexing.IffyIsIdentifier | lexer.h:134 | `iffy` is one identifier, not the keyword `if` followed by `fy`. |
| Lexing.IfIsKeyword | lexer.h:134-141 | `if` followed by `(` is the keyword. |
| Lexing.DigitsAreIntLiteral | lexer.h:144-151 | `42;` gives integer literal 42 and leaves the cursor on the semicolon. |
| Lexing.ScanStringLiteral | lexer.h:123-131 | The literal's text is exactly the characters between the quotes, and the cursor ends just past the closing quote. Lines are counted as the source counts them, up to one character past the closing quote. |
| Lexing.ScanUnterminatedString | lexer.h:126-129 | A string with no closing quote is a lexical error. |
| Lexing.ScanLineComment | lexer.h:103-119 | A `//` comment is skipped through its newline, and that newline adds one to the line. |
| Lexing.ScanUnterminatedLineComment | lexer.h:113-120 | A `//` comment that runs to the end of the text ends the call with end of file. |
| Lexing.ScanBlockComment | lexer.h:103-119 | A block comment is skipped through its first star-slash, and the line grows by the newlines skipped. |
| Lexing.ScanUnterminatedBlockComment | lexer.h:111-113 | A block comment with no end is a lexical error. |
| Lexing.ScanPendingSymbolDropped | lexer.h:97-176 | A symbol still pending at the end of the text is dropped, and the result is end of file. |
| Lexing.Lexer.constructor | lexer.h:89-91 | A new lexer starts at the beginning of the text, on line 1. |
| Lexing.Lexer.StepAt | lexer.h:99-174 | The body of the loop computes exactly one pass as `Step` specifies it. |
| Lexing.Lexer.Next | lexer.h:93-177 | Returns the token that `NextToken` specifies, and leaves the cursor and line where `NextToken` says. |
| Expressions.OperandCount | expression.h:24 | Unary, binary and ternary operators take one, two and three operands. |
| Expressions.DefaultExpr | expression.cpp:63 | The default expression has kind NONE and no payload. |
| Expressions.MakeIntExpr | expression.cpp:65-75 | Succeeds exactly for INT_LITERAL and carries the integer. gentype is the table's. |
| Expressions.IntExpr | expression.cpp:76-79 | Always an integer literal. |
| Expressions.MakeStrExpr | expression.cpp:81-91 | Succeeds exactly for STR_LITERAL and IDENTIFIER, and stores the kind IDENTIFIER for both. |
| Expressions.MakeCallExpr | expression.cpp:95-107 | Succeeds exactly for FUNC_CALL. The children are the callee followed by the arguments, so there are 1 + (number of arguments) of them. |
| Expressions.CallExpr | expression.cpp:94 | The callee-and-arguments shorthand is the FUNC_CALL constructor. |
| Expressions.MakeUnaryExpr | expression.cpp:110-129 | Succeeds exactly for PARENTHESIS and the eight unary kinds, with the operand as the only child. |
| Expressions.MakeBinaryExpr | expression.cpp:132-154 | Succeeds exactly for INDEXING and the ten binary kinds, keeping the operands in order. |
| Expressions.MakeTernaryExpr | expression.cpp:158-171 | Succeeds exactly for TERNARY. The children are exactly condition, true branch and false branch. |
| Expressions.TernaryExpr | expression.cpp:157 | The three-operand shorthand is the TERNARY constructor. |
| Expressions.MakeOperatorExpr | parser.h:275-281 | The operand-vector constructor succeeds exactly for one operand of a unary or parenthesis kind, two of a binary or indexing kind, or three of the ternary. Its children are the operands in the reverse of the order they were popped. |
| Expressions.ReverseReverse | parser.h:275-281 | Reversing the popped operands twice restores them. |
| Expressions.ArityCategories | expression.cpp:36-61 | The arity table puts the ten binary, eight unary, one ternary, three grouping and four single-token kinds (NONE included) in their categories, both ways. |
| Expressions.PrecedenceLadder | expression.cpp:3-13 | Comma < assignment/ternary < `\|\|` < `&&` < equality < additive < prefix unary < postfix/indexing, with the equal levels the table gives. |
| Expressions.Associativity | expression.cpp:15-34 | An operator is right-associative exactly when it is an assignment, the ternary or a prefix unary. |
| Expressions.OperatorPrecedenceRange | expression.cpp:3-13 | Binary operators sit at 0-5, prefix unaries at 6, postfix at 7, ternary at 1. |
| Statements.UninitVariable | statement.h:20 | A variable declared without an initialiser is uninitialised and holds none. |
| Statements.InitVariable | statement.h:21 | A variable declared with an initialiser is initialised and holds it. |
| Statements.MakeCompound | statement.cpp:5-14 | Succeeds exactly for COMPOUND, holding the statements in order and nothing else. |
| Statements.CompoundStmt | statement.cpp:4 | The statement-list shorthand is the COMPOUND constructor. |
| Statements.MakeBranch | statement.cpp:17-28 | Succeeds exactly for CONDITIONAL and LOOP. The body is exactly the one statement, with the condition set. |
| Statements.MakeExprStmt | statement.cpp:31-40 | Succeeds exactly for RETURN and EXPRESSION, and sets only the expression. |
| Statements.MakeVarDef | statement.cpp:45-54 | Succeeds exactly for VAR_DEF, and sets only the variables. |
| Statements.VarDefStmt | statement.cpp:44 | The variable-list shorthand is the VAR_DEF constructor. |
| Statements.MakeNop | statement.cpp:58-64 | Succeeds exactly for NOP, with no parts. |
| Statements.NopStmt | statement.cpp:57 | The default statement is a no-op with no parts. |
| Statements.StatementCell.Value | statement.h:29-32 | The cell's fields are the statement it holds. |
| Statements.StatementCell.constructor | statement.h:24-32 | A cell holds the statement it was built from. |
| Statements.StatementCell.SetBody | statement.cpp:66-69 | `setbody(list)` replaces the body and nothing else. |
| Statements.StatementCell.SetBodyTo | statement.cpp:71-75 | `setbody(stmt)` leaves the body exactly `[stmt]` and changes nothing else. |
| Statements.StatementCell.SetExpr | statement.cpp:77-80 | `setexpr` replaces the expression only. |
| Statements.StatementCell.SetVars | statement.cpp:82-85 | `setvars` replaces the variables only. |
| Statements.SettersKeepShape | statement.cpp:71-80 | Setting a branch's or compound's body to one statement, or replacing an existing expression, keeps the statement well shaped. |
| Program.MakeFunction | function.h:15 | Keeps the name and body, with no parameters. |
| Program.MakeFunctionWithParams | function.h:16 | Keeps name, parameters in order, and body. |
| Program.EmptyLibrary | library.h:13 | The empty library has no functions. |
| Fragments.GetTag | parsertoken.h:33-39 | The tag names exactly the payload the fragment holds. |
| Fragments.DefaultFragment | parsertoken.h:32 | The default fragment is ERR and not ill-formed. |
| Grammar.MakeGoal | lang_syntax.h:24-30 | Refuses STATEMENT and EXPRESSION without a variant. Accepts LIBRARY, FUNCTION and NONE. |
| Grammar.DefaultGoal | lang_syntax.h:31 | The default goal is NONE. |
| Grammar.DefaultAction | lang_syntax.h:44-45 | The default action is JUMP to -1 with return -1, no goal and no load. |
| Grammar.StateAction | lang_syntax.h:47-48 | Sets kind, next state and return state, with no goal and no load. |
| Grammar.GoalAction | lang_syntax.h:50-51 | Sets kind, goal and return state, with next state -1. |
| Grammar.LoadAction | lang_syntax.h:53-54 | Sets kind and load flag, with states -1 and no goal. |
| Grammar.GrammarAsWritten | lang_syntax.h:102-1065 | Every entry of the table as written has the shape `EntryShape` describes. |
| Grammar.Table | lang_syntax.h:102-1065 | Either reading's table has only entries of that shape. As written it is the source's table. Corrected, it differs only in the wildcard entry of 49. |
| Grammar.TablesDifferOnlyAt49 | lang_syntax.h:468-471 | The two tables agree on every key but the wildcard of 49, where they differ. So the lookup agrees at every state but 49. |
| Grammar.ChooseAction | parser.h:33-54 | Tries the exact key, then the state's wildcard. It fails, naming the state and kind, exactly when both are missing. |
| Grammar.EntriesAreShaped | lang_syntax.h:102-1065 | No entry is a JUMP. Every REDUCE has a goal and a non-negative return state. Statement reductions go to 9, expression reductions to 78 or 99 by sub-grammar. Only states 3, 9, 35, 42, 78, 98 and 99 return. |
| Grammar.ChosenEntriesAreShaped | parser.h:33-54 | Whatever the lookup returns has that shape. |
| Grammar.NoJumpEntries | lang_syntax.h:102-1065 | The lookup never returns a JUMP. |
| Grammar.LibraryCalls | lang_syntax.h:104-111 | In both readings, states 0 and 93 call the function grammar at 1, returning to 93, on every token but end of file. |
| Grammar.LibraryEnd | lang_syntax.h:120-123 | In both readings, end of file at 93 reduces LIBRARY and moves to 3. |
| Grammar.AcceptState | lang_syntax.h:124-127 | In both readings, state 3 returns with load-next whatever the lookahead. |
| Grammar.LibraryLoop | lang_syntax.h:104-127 | States 0 and 93 call function parsing (state 1) returning to 93 on anything but end of file. At 93 end of file reduces LIBRARY into state 3, and state 3 returns with load-next. |
| Grammar.StatementEndReturns | lang_syntax.h:128-131 | State 9 returns on every token. |
| Grammar.Row78 | lang_syntax.h:632-691 | The exact-key entries of 78 as written are the recursive call into 42 for exactly the tokens that continue an expression, comma included, and no other. |
| Grammar.Row99 | lang_syntax.h:1005-1060 | The exact-key entries of 99 are the recursive call into 98 for exactly the tokens that continue an expression, comma excluded, and no other. |
| Grammar.ExpressionEnd | lang_syntax.h:632-695 | At 78, a binary or postfix operator, `[`, `(`, `?` or comma re-enters 42 recursively, and anything else returns. |
| Grammar.ExpressionEndNoComma | lang_syntax.h:1005-1064 | 99 mirrors 78 into 98, except that a comma returns. |
| Grammar.InitialiserStopsAtComma | lang_syntax.h:761-820 | An initialiser is parsed by the comma-free sub-grammar at 97, so a comma ends it and continues the definition. |
| Grammar.WildcardReentersItself | lang_syntax.h:328-331 | On a token with no entry, states 11 and 97 call themselves without consuming input. |
| Grammar.SecondArgumentTakesCommaAsWritten | lang_syntax.h:452-471 | As written, the argument after a comma is parsed by the sub-grammar at 11, where a comma is an operator. |
| Grammar.ArgumentsAreCommaFree | lang_syntax.h:452-471 | In the corrected table, every argument state calls the comma-free sub-grammar at 97 and returns to the state that takes the separating comma or the closing parenthesis. In that sub-grammar a comma ends the argument. |
| Reducer.ExprFromBack | parser.h:56-131 | Reading the i-th fragment from the left succeeds exactly when it is an expression, and gives that expression. |
| Reducer.FunctionsOf | parser.h:151-152 | Collects functions in order, and succeeds exactly when every fragment is a function. |
| Reducer.ReduceExpression | parser.h:56-131 | The node has the goal's kind, except that a string literal becomes IDENTIFIER. NONE is not handled. |
| Reducer.ReduceStatement | parser.h:157-214 | The statement has the goal's kind and its shape. |
| Reducer.ReduceFunction | parser.h:133-145 | Succeeds exactly when the frame has an identifier and its most recent fragment is a statement. Name followed by parameters are the identifiers left to right, and the body is that statement. |
| Reducer.ReduceLibraryAsWritten | parser.h:147-155 | As written, the library holds every fragment but the most recent one, in declaration order. |
| Reducer.ReduceLibrary | parser.h:147-155 | The library holds every function of the frame in declaration order. It succeeds exactly when all fragments are functions. |
| Reducer.Reduce | parser.h:216-231 | In either reading, each goal yields a fragment of its category, not ill-formed. A statement keeps the goal's statement kind. NONE is not handled. |
| Reducer.CallRoundTrip | parser.h:79-90 | The fragments of `f(a1, ..., an)` reduce to the call of `f` on exactly those arguments. |
| Reducer.BinaryRoundTrip | parser.h:91-105 | `lhs op rhs` reduces to the binary node of lhs and rhs in order. |
| Reducer.TernaryRoundTrip | parser.h:119-128 | `c ? t : f` reduces to the ternary of c, t, f. |
| Reducer.PrefixRoundTrip | parser.h:106-116 | `( e )` and a prefix operator reduce to the node of their operand. |
| Reducer.PostfixRoundTrip | parser.h:114-118 | `e ++` reduces to the postfix node of e. |
| Reducer.StatementRoundTrips | parser.h:168-182 | if/while take the condition third and the body fifth. return takes its expression second, and an expression statement its first. |
| Reducer.CompoundRoundTrip | parser.h:161-167 | `{ s1 ... sn }` reduces to the compound of exactly those statements. |
| Reducer.VarsOfDecls | parser.h:185-206 | Walking a definition gives one variable per identifier, initialised exactly when an expression follows its `=`. |
| Reducer.VarDefRoundTrip | parser.h:185-206 | `var x = e, y;` reduces to the definition of exactly those variables. |
| Reducer.IdentsOfParams | parser.h:135-138 | The identifiers of a parameter list are the parameters in order. |
| Reducer.FunctionRoundTrip | parser.h:133-145 | A function's fragments reduce to the function with that name, those parameters and that body. |
| Reducer.LibraryRoundTrip | parser.h:147-155 | The functions of a program reduce to the library of all of them in order. |
| Reducer.LibraryAsWrittenDropsLast | parser.h:149 | As written, the library loses the last function. |
| Reducer.LibraryAsWrittenExample | parser.h:149 | For two functions f then g, the library as written is `[f]` while the intended one is `[f, g]`. |
| Resolver.Flatten | parser.h:233-259 | An operand flattens to itself, and a flattening is never empty. |
| Resolver.Resolve | parser.h:301-320 | A single token is unchanged. A grouping resolves exactly when each of its children does; it then keeps its kind, arity and number of children, and its i-th child is the i-th child resolved. |
| Resolver.ResolveAll | parser.h:311-312 | Resolving children succeeds exactly when every child resolves. The result then has as many entries, and the i-th is the i-th child resolved. |
| Resolver.Apply | parser.h:275-282 | Applying an operator succeeds exactly when enough operands are on the output stack. It replaces exactly its operands, leaving everything below unchanged, with the node whose children they are in push order. |
| Resolver.ApplyBuildsOperatorNode | parser.h:275-281 | That node is what the operand-vector constructor builds from the operands as popped. |
| Resolver.ShuntingYard | parser.h:298 | The result is the top of the final output stack. It fails when the stack is empty. |
| Resolver.PopTop | parser.h:276-280 | Popping n entries gives them top first and leaves the rest. It fails exactly when fewer than n are there. |
| Resolver.PopOperator | parser.h:275-282 | One operator pop computes exactly `Apply`. |
| Resolver.RpnAst | parser.h:261-299 | The operator/output-stack loops compute exactly `ShuntingYard`. |
| Resolver.ShuntingYardKeepsOperands | parser.h:261-299 | The operands of the output stack are the operands of the input list, in order. The result's operands are a suffix of them. |
| Resolver.FlattenKeepsOperands | parser.h:233-259 | With the corrected flattening, a ternary-free tree flattens successfully and its operands appear in source order. |
| Resolver.ResolveKeepsOperands | parser.h:301-320 | Resolving such a tree loses and reorders no operand. |
| InfixResolution.FlattenReadsWhole | parser.h:233-259 | The corrected flattening of a tree of unary and binary operators reads as one expression: every prefix operator before an operand, every binary and postfix one after one, ending on an operand. |
| InfixResolution.OutputStackLeavesOne | parser.h:261-299 | On a list that reads as one expression, rpn_ast always finds the operands of every operator it pops and ends with exactly one tree on the output stack. |
| InfixResolution.InfixIsTernaryFree | parser.h:237-239 | A tree of unary and binary operators has no ternary for flattening to resolve. |
| InfixResolution.ResolveInfix | parser.h:301-320 | Corrected, rpn_expr on any tree of unary and binary operators succeeds. The output stack ends with exactly the result, and the result keeps the tree's operands in source order. |
| InfixResolution.FlattenAsWrittenShape | parser.h:248-256 | As written, a binary operator flattens to its left operand as it stands, then itself, then its right operand flattened. When the left operand is an operator tree, only the right operand's operands reach the list. |
| InfixResolution.LeftNestedAsWritten | parser.h:248-251 | As written, a left-nested tree such as `(a + b) + c`, the shape resolution itself builds, fails with a missing operand. |
| InfixResolution.LeftNestedCorrected | parser.h:248-251 | Corrected, that tree resolves to itself. |
| InfixResolution.NestedGrouping | parser.h:308-313 | A grouping holding that tree, as a nested grouping re-resolves it, fails as written and comes back unchanged corrected. |
| InfixResolution.TernaryResolves | parser.h:237-239 | In either reading, `c ? t : f` over single tokens resolves to the ternary with its middle operand in parentheses. |
| InfixResolution.TernaryRun | parser.h:261-299 | rpn_ast on `[c, ?:, m, f]` ends with the ternary of c, m and f alone on the output stack. |
| Resolver.TwoOperators | parser.h:271-283 | `a op1 (b op2 c)` regroups to `(a op1 b) op2 c` exactly when op1 must be popped before op2, and otherwise stays. |
| Resolver.PrecedenceRegroups | parser.h:271-283 | `a + b - c` and `a && b \|\| c`, parsed right-leaning, regroup to the left. |
| Resolver.PrecedenceKeeps | parser.h:271-283 | `a = b = c` and `a \|\| b && c` keep their right-leaning shape. |
| Resolver.FlattenPrefix | parser.h:241-255 | A prefix operator over `a + b` flattens to the operator, then `a + b` flattened. |
| Resolver.PrefixBindsTighter | parser.h:261-320 | `-(a + b)` as parsed resolves to `(-a) + b`. |
| Resolver.PostfixOperandMissingAsWritten | parser.h:248-251 | As written, flattening `a++ + b` loses operand `a`, and resolution runs out of operands. |
| Resolver.RunPostfixAsWritten | parser.h:271-283 | The list `[a++, +, b]` makes rpn_ast pop the postfix operator from an empty output stack. |
| Resolver.PostfixOperandCorrected | parser.h:248-251 | With the corrected flattening, `a++ + b` resolves to itself. |
| Parsing.Initial | parser.h:324-329 | The new parser has one more count than return states. |
| Parsing.PopFrame | parser.h:419-425 | Leaving a frame fails exactly when no return state is left, and otherwise keeps one more count than return states. |
| Parsing.BumpTop | parser.h:347 | `reduce_stack.top()++` adds one to the top count and nothing else. |
| Parsing.Normalise | parser.h:396-408 | A statement's expression that is not a grouping, and a reduced grouping expression, are replaced by `rpn_expr` of themselves: the fragment is otherwise the same, and it fails exactly when resolution fails, with that error. The tag and a statement's kind, body and variables are kept. Nothing changes in any other case. |
| Parsing.Step | parser.h:337-338 | A turn fails with the lookup's error when no entry applies, and otherwise carries out the entry's action. |
| Parsing.Finish | parser.h:431-437 | Succeeds exactly when the top fragment is a library, and returns it. Otherwise it reports that no library was built. |
| Parsing.ShiftPushesToken | parser.h:345-349 | SHIFT pushes the token, adds one to the top count, moves to the next state and ends the feed. |
| Parsing.CallOpensFrame | parser.h:362-372 | CALL_NONTERM and CALL_NONTERM_REC push a count of 0 or 1 and the return state, and move to the next state. |
| Parsing.CallThenReturn | parser.h:362-372 | Leaving a frame just opened returns to its return state with the parent's count one higher. |
| Parsing.ReturnLeavesFrame | parser.h:419-425 | A goal-NONE REDUCE, or RETURN, pops both stacks and moves to the return state. The new top count is one higher. It fails when no return state is left. |
| Parsing.ReduceFrameOk | parser.h:376-417 | When the goal's reduction of the frame's fragments, taken most recent first and then normalised, succeeds with g, those fragments give way to g and the state becomes the return state. A negative return state also leaves the frame. |
| Parsing.ReduceFrameFails | parser.h:378-394 | A goal REDUCE fails with a stack underflow when the frame counts more fragments than the stack holds. Otherwise it fails exactly when the reduction or its resolution fails, with that error. |
| Parsing.LibraryReduction | parser.h:376-391 | Corrected, with the functions of the outer frame on top of the stack, the library reduction replaces them by the library of those functions, in declaration order, and moves to state 3. |
| Parsing.LibraryReductionAsWritten | parser.h:147-155 | As written, the same reduction fails on a frame with no function. Otherwise it leaves the library of every function but the last, and moves to state 3. |
| Parsing.AcceptsAtThree | parser.h:335-338 | At state 3 a feed accepts whatever the lookahead, leaving the stacks as they are. |
| Parsing.LibraryStepRuns | parser.h:335-391 | At state 93 with end of file, the first turn of feed reduces the library and leaves the rest of the feed to state 3. |
| Parsing.ReduceReplacesFrame | parser.h:378-394 | With a non-negative return state, exactly top-count fragments are replaced by one fragment of the goal's category. The stacks below and the counts are unchanged. |
| Parsing.FeedEndsByShiftOrAccept | parser.h:410-417 | Under this table a feed ends only by shifting or by accepting, never by a reduction leaving its frame. |
| Parsing.RunContinues | parser.h:335-338 | A turn whose action goes on leaves the rest of the feed, with one action fewer, to the state it reaches. |
| Parsing.RunStops | parser.h:345-349 | A turn whose action stops ends the feed in the state and with the outcome it gives. |
| Parsing.RunFails | parser.h:335-338 | A turn that fails, for want of an entry or in its action, ends the feed with that error in the state it was given. |
| Parsing.RunOneMore | parser.h:335-338 | One more action allowed changes a feed only through the rest of the run after its first turn. |
| Parsing.RunFuelMonotone | parser.h:333-429 | A feed that did not run out of its step bound gives the same result with any larger bound. |
| Parsing.EndOfInputRuns | parser.h:335-391 | In either reading, when the library reduction at 93 succeeds, the feed of end of file accepts in the state it leaves. |
| Parsing.EndOfInputAccepts | parser.h:374-417 | Corrected, at 93 with the functions on the stack, end of file reduces the library and accepts. finish then returns all the functions in order. |
| Parsing.EndOfInputAsWritten | parser.h:147-155 | As written, the same feed fails when there is no function. Otherwise it accepts, and finish returns every function but the last. |
| Parsing.NoFunctionFailsAsWritten | parser.h:147-155 | As written, end of input with no function in the outer frame fails the library reduction, with the malformed-fragments error. |
| Parsing.LastFunctionDroppedAsWritten | parser.h:147-155 | As written, end of input after one or more functions accepts, and finish returns them all but the last, in order. |
| Parsing.EmptyProgramHasNoLibrary | lang_syntax.h:112-115 | An empty program shifts end of file at state 0, so finish reports that there is no library. |
| Parsing.Parser.Current | parser.h:22-25 | The parser's fields are its configuration. |
| Parsing.Parser.constructor | parser.h:324-329 | The new parser is in the initial configuration, for the reading it is given. |
| Parsing.Parser.LeaveFrame | parser.h:419-425 | Does exactly what `PopFrame` specifies. |
| Parsing.Parser.InstallFrame | parser.h:392-417 | Replaces the frame's fragments by the reduced one and sets the return state, leaving the frame on a negative one, exactly as `Install` specifies. When there is no frame to leave it fails and changes nothing. |
| Parsing.Parser.PlaceFrame | parser.h:391-392 | Installs a reduction's fragment as `Place` specifies. A failed reduction is reported and changes nothing. |
| Parsing.Parser.ReduceGoal | parser.h:376-417 | Does exactly what `ReduceFrame` specifies. On failure it leaves the parser unchanged. |
| Parsing.Parser.PerformAction | parser.h:339-427 | Carries out one action as `Perform` specifies, reporting whether feed goes on or how it stops. A failed action leaves the parser unchanged. |
| Parsing.Parser.Advance | parser.h:337-427 | When one turn stops the feed, the parser's state and the result are those of the whole bounded run. Otherwise the rest of the run from the new state gives what the run from the old one gives. |
| Parsing.Parser.Feed | parser.h:333-429 | Reaches the configuration and outcome that `Run` specifies for the same step bound. |
| Parsing.Parser.FinishParse | parser.h:431-437 | Returns what `Finish` specifies. |
| CallArguments.IdentifierAt49 | lang_syntax.h:468-471 | After the comma between two arguments, an identifier opens the argument's frame (returning to 48) and is shifted: into the sub-grammar at 11 as written, at 97 corrected. |
| CallArguments.IdentifierStep | lang_syntax.h:365-366 | An identifier alone in its frame is reduced in place to the identifier expression, and the state becomes the entry's return state. |
| CallArguments.CommaOperator | lang_syntax.h:677-679 | As written, a comma after an argument at 78 re-enters the expression at 42 and is shifted as a comma operator. |
| CallArguments.CommaSeparator | lang_syntax.h:1062-1064 | Corrected, a comma after an argument at 99 leaves the argument's frame for 48 and is shifted as the separator. |
| CallArguments.SecondArgumentAsWritten | lang_syntax.h:468-471 | As written, feeding `b` then `,` after `f(a,` leaves the parser two frames deeper at 61, inside the comma expression that `b` begins. |
| CallArguments.SecondArgumentCorrected | lang_syntax.h:468-471 | Corrected, the same two feeds bring the parser back to 49 in the call's frame, with `b` reduced and the separator shifted, ready for the third argument. |

## Left out

- The lexer reads Dafny `char`s where lexer.h reads the bytes of a `std::string` and classifies them with `isspace` and `isdigit`. `Lexing.IsSpace` and `Lexing.IsDigit` are those two in the C locale, so token boundaries agree with the source for that locale; other locales and bytes above 127 are not modelled.
- main.cpp (file reading and printing), debugprinter.h (console rendering), context.h (empty) and reducer.h (a sketch the parser never calls) are not part of this model.
- `Lexer::tokenize` (lexer.h:179-190) is not modelled. It is a batch helper the parser does not use.
- The `cout` diagnostics in `choose_action` are not modelled. A missing entry is an error result naming the state and kind.
- `shared_ptr` sharing is not modelled. Every node is a value. The statement setters act on a `StatementCell` holding one statement's fields, so aliasing through shared pointers is not captured.
- `Lexing.DecimalValue`: `stoi` is the decimal value of the digits; `int` overflow is not modelled.
- Lines are unbounded naturals, not `unsigned`.
- The lexer's unspecified-behaviour cases are modelled as errors:
  - an unterminated `/*` (`npos + 1` wraps, lexer.h:112);
  - an unterminated string literal (the cursor advances by `npos`, lexer.h:127-129).

  A `//` comment that runs to the end of the text ends in end of file, as the `break` does. The line count of a string literal is clipped at the end of the text where the source reads one character past it.
- `Parsing.Parser.Feed`, `Parsing.Run`: `feed` may loop forever on a token that cannot start an expression (states 11 and 97, `Grammar.WildcardReentersItself`). The model bounds the number of actions per feed with a fuel parameter and reports running out. `Parsing.RunFuelMonotone` shows that the bound changes no result it does not cut off.
- RETURN has no case in `feed` (parser.h:339-427), so as written it would repeat forever. Following the table's own description (lang_syntax.h:84-100), RETURN pops the frame as the goal-NONE REDUCE does, and the RETURN with load-next at state 3 ends the parse as accepted.
- The uninitialised default action (lang_syntax.h:45) is taken as JUMP to -1, which enters the loop. JUMP itself is modelled, but no entry uses it (`Grammar.NoJumpEntries`).
- `Parsing.Finish` reports an explicit error instead of returning an empty library. It checks only the top fragment, as parser.h:433-435 does, rather than requiring the stack to hold exactly one fragment.
- Variable initialisers are not passed through precedence resolution. The code resolves only a statement's `expr` and grouping expressions (parser.h:396-408).
- In a variable definition, the fragment two places after an identifier at the end of the list lies past the end. It is read as "not an expression".
- `Reducer.ReduceLibraryAsWritten` requires a non-empty frame, because `pop_front` on an empty list is undefined. `Reducer.Reduce` reports that case as malformed fragments.
- A whole parse of a concrete program, from its tokens to a library, is not proved. The lexer and the parser share the token type, but no lemma feeds the lexer's output to the parser. The parse lemmas cover single turns, the end of input, and the two feeds of `f(a, b, c)` after its first comma (`CallArguments`).
- A failed reduction or resolution (a missing fragment, an operator without operands) is an error result. In the source it dereferences a missing element.
- The operand-vector constructor (expression.h:60) and `operand_count` (expression.h:24) have no definitions in the source. The model uses 1, 2 and 3 operands. The popped operands are reversed into children, so children keep source order.
- `identifier.h` is not part of this model. Identifiers are strings.
- `Statements.StatementCell.SetBodyTo` requires an existing body list, because `setbody(stmt)` dereferences it.

## Findings

| source | as written | input that shows it | evidently intended | confidence | as-written member | corrected member |
|---|---|---|---|---|---|---|
| parser.h:147-155 | `reduce_library` calls `pop_front` on the frame's fragments. The front is the most recent fragment, which is the last function. | A program declaring `f` then `g`: the library holds only `f`. | Every function, in declaration order. | not executed | Parsing.EndOfInputAsWritten | Parsing.EndOfInputAccepts |
| lang_syntax.h:468-471 | State 49, reached after a comma in a call's argument list, calls the sub-grammar at 11, which treats a comma as an operator. | `f(a, b, c)`: after `f(a,`, feeding `b` and then `,` shifts that comma inside the second argument, as a comma operator two frames deeper. The second argument thus begins the comma expression `b, c` rather than ending at `b`. | Call the comma-free sub-grammar at 97, as states 47, 109 and 111 do. | not executed | CallArguments.SecondArgumentAsWritten | CallArguments.SecondArgumentCorrected |
| parser.h:248-251 | `rpn_traverse_tree` emits an operator's first child without flattening it. It also puts every unary operator before its operand, postfix ones included. | The tree of `a++ + b` flattens to `[a++, +, b]`. rpn_ast then pops `++` from an empty output stack. | Flatten the first child too, and put a postfix operator after its operand. | not executed | Resolver.PostfixOperandMissingAsWritten | InfixResolution.ResolveInfix |
| parser.h:248-251 | The same unflattened first child breaks any left-nested tree, which is the shape rpn_expr itself builds from `a + b + c`. A grouping re-resolves its children (parser.h:308-313), so a nested grouping meets that shape again. | `((a + b + c))`: the inner grouping resolves to `(a + b) + c`, and resolving the outer one runs out of operands. | Resolution succeeds on its own output. | not executed | InfixResolution.LeftNestedAsWritten | InfixResolution.LeftNestedCorrected |
