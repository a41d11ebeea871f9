# A verified model of the Compiler2 front end and byte-code back end

This project models, in Dafny, the compiler pipeline of Compiler2, a small
compiler written in Java that turns a scripting language into byte code
for a native virtual machine. It follows the pipeline stage by stage:

- **Lexer** (`lexer.dfy`, `newline_token.dfy`): first-match,
  prefix-consuming tokenisation with line counting. Custom recognizers
  come first, then regular expressions, each group in registration order.
  When nothing matches, a syntax error is raised and no tokens are kept.
- **Token-rewriting parser** (`parser.dfy`, `patterns.dfy`,
  `parser_proofs.dfy`): a live token list plus a ledger of removed tokens.
  It supports `remove`/`purge`, the map of token names, and `replace`,
  which reduces a matched span to one token carrying a syntax-tree node.
- **Compiler** (`compiler.dfy`, `compiler_main.dfy`, `compiler_proofs.dfy`,
  `binder.dfy`): the lexer table of `initLexer`, the rule list of `parse`
  with its checkers, and the `SyntaxTreeBinder` builders. `compile` runs
  `parse` until the map stops changing.
- **Syntax tree and tool walk** (`syntax_tree.dfy`, `tree_paths.dfy`,
  `generator.dfy`, `generator_proofs.dfy`): `Generator.runTools` walks the
  tree with `ScopeTool` (`scope_tool.dfy`), the slot allocator and name
  resolver, and with `OptimizerTool` (`optimizer_tool.dfy`), the in-place
  tagger. `Errors` (`errors.dfy`) is the global error flag.
- **Byte code** (`vm_bytecode_generator.dfy`,
  `vm_bytecode_generator_proofs.dfy`, `vm_wrapper.dfy`, `utils.dfy`): the
  flat slot array of `VMByteCodeGenerator`, with its two ways of counting
  jump offsets. `VMWrapper`'s walk splits the array into instructions.

Where the code does something its authors evidently did not intend, the
model keeps both versions. In the front end a `Relocation` parameter
(`AsWritten` or `Intended`) selects one. Elsewhere an `...AsWritten`
definition sits next to the corrected one, which is the one the rest of
the model uses. Each such place is listed under "Findings".

The files are one Dafny module each. Verify them together:

    dafny verify *.dfy

## Model

| member | source | states |
|---|---|---|
| Errors.Raise | src/main/java/com/example/Errors.java:14-43 | every reporter raises the flag and adds its own report after the earlier ones |
| Errors.Cleared | src/main/java/com/example/Errors.java:10-12 | after `clear` no error is flagged and no report is pending |
| Errors.RunKeepsConsistency | src/main/java/com/example/Errors.java:3-43 | over any run of clears, reports and queries, the flag is raised exactly when a report was made since the last clear |
| Errors.FlagIsSticky | src/main/java/com/example/Errors.java:6-43 | without a `clear`, a raised flag stays raised and no report is lost |
| Errors.FlagAfterClear | src/main/java/com/example/Errors.java:6-43 | after a `clear`, `wasThereAnError` answers true exactly when some later event was a report (both directions) |
| NewlineToken.RunLength | src/main/java/com/example/NewlineToken.java:5-7 | the run of line breaks is nonempty exactly when `check` holds, and the character after it is not a line break |
| NewlineToken.GetText | src/main/java/com/example/NewlineToken.java:10-16 | `getText` returns the longest prefix made only of line breaks |
| NewlineToken.RunIsLongest | src/main/java/com/example/NewlineToken.java:10-16 | any all-line-break prefix that is followed by another character, or by nothing, is that run |
| Utils.CopyArrays | src/main/java/com/example/Utils.java:15-20 | the arrays are laid end to end from `loc`; the destination before `loc` and after the copied span is unchanged |
| Utils.CopyIntoExact | src/main/java/com/example/Utils.java:15-20 | copying into an array of exactly the total length gives the concatenation of the parts |
| OptimizerTool.ProcessBlock | src/main/java/com/example/OptimizerTool.java:5-15 | `processBlock` adds a tag only on a child path of the visited block |
| OptimizerTool.TagIff | src/main/java/com/example/OptimizerTool.java:5-15 | for `x = x op e` the operator is tagged `inplace = x` and every other tag is unchanged; for any other block nothing changes |
| OptimizerTool.TagOnlyForSelfUpdate | src/main/java/com/example/OptimizerTool.java:5-15 | any tag that is new or changed marks an operator whose left operand is the assigned variable |
| OptimizerTool.ComparisonIsTagged | src/main/java/com/example/OptimizerTool.java:6-10 | `i = i < 10` is tagged like `i = i + 1`, because `processBlock` only asks whether the value is an `Operator` |
| Base.CountCharAppend | src/main/java/com/example/Lexer.java:43-44 | the line breaks of two texts laid end to end add up, which is how the lexer's line count accumulates |
| Lexer.Put | src/main/java/com/example/Lexer.java:22-28 | `add` on the ordered map: a new name goes last; a known name keeps its place and takes the new value; every other entry is unchanged |
| Lexer.FindFromText | src/main/java/com/example/Lexer.java:30-37 | the match of an anchored regular expression is always a prefix of the text, or empty when it does not match |
| Lexer.FirstCustom | src/main/java/com/example/Lexer.java:40-47 | the chosen custom recognizer is the first in registration order whose `check` holds |
| Lexer.FirstRegex | src/main/java/com/example/Lexer.java:48-55 | the chosen regular expression is the first in registration order with a non-empty match |
| Lexer.GetToken | src/main/java/com/example/Lexer.java:39-57 | the token text is a prefix of the input, and the counter rises by exactly its line breaks |
| Lexer.GetTokenFirstMatch | src/main/java/com/example/Lexer.java:39-57 | custom recognizers win over regular expressions even with an empty text; otherwise the first non-empty regular-expression match wins; otherwise the `NONE` token |
| Lexer.LexFrom | src/main/java/com/example/Lexer.java:59-73 | on success the token texts rebuild the remaining input, none is empty, and the errors are unchanged; on failure there are no tokens and one syntax error is raised inside the input |
| Lexer.Lex | src/main/java/com/example/Lexer.java:59-73 | `lex` loses no character: the token texts rebuild the code, or else the list is empty and a syntax error is raised |
| Lexer.LexLines | src/main/java/com/example/Lexer.java:43-53 | every token carries the start line plus the line breaks of all text up to and including its own |
| Lexer.LexLoop | src/main/java/com/example/Lexer.java:59-73 | the source's `while` loop, including its early return, computes the same tokens and errors as the recursive model |
| LexerRuns.LexScansAll | src/main/java/com/example/Lexer.java:59-73 | a successful `lex` returns exactly the tokens the scanner hands out one after another from the start, each non-empty and stamped with the line count so far |
| LexerRuns.LexFailsAt | src/main/java/com/example/Lexer.java:59-73 | a failed `lex` made a run of non-empty scans and then an empty one, and its one syntax error is at the offset in the code right after that run |
| LexerRuns.LexFromScans | src/main/java/com/example/Lexer.java:59-73 | `lex` either rebuilds the input from the scanner's run, or fails with one syntax error exactly where the scanner first returns an empty text |
| Lexer.FirstLiteral | src/main/java/com/example/Compiler.java:38-78 | an alternation of literal words matches the first alternative that is a prefix of the input |
| Patterns.MatchSeqSound | src/main/java/com/example/Parser.java:73-74 | every span the pattern matcher reports is a word sequence of the rule pattern's language |
| Patterns.MatchOneSound | src/main/java/com/example/Parser.java:73-74 | a single pattern element matches only words of its language |
| Patterns.MatchStarSound | src/main/java/com/example/Parser.java:73-74 | a repeated group matches only repetitions of the group |
| Patterns.FindFrom | src/main/java/com/example/Parser.java:77 | `find` returns the leftmost non-empty match from the start word, and reports none exactly when no word from there starts a match |
| Patterns.NthMatch | src/main/java/com/example/Parser.java:75-80 | the `n`-th `find` is a match at or after the start; the first `find` is the leftmost match |
| Parser.Kept | src/main/java/com/example/Parser.java:51-58 | `purge` leaves no token of the purged name and never adds one |
| Parser.Ledger | src/main/java/com/example/Parser.java:41-49 | every ledger entry `remove` writes holds a token of the removed name, recorded at a position no earlier than the kept tokens before it |
| Parser.RemoveRoundTrip | src/main/java/com/example/Parser.java:41-49 | weaving the ledger back into the kept tokens gives the original list, so `remove` loses nothing |
| Parser.RemoveCounts | src/main/java/com/example/Parser.java:41-58 | `remove` and `purge` drop exactly the tokens `count` counts, leave none of that name, and the ledger grows by as many |
| Parser.CountBelowCountStartsWith | src/main/java/com/example/Parser.java:197-214 | `count(n)` never exceeds `countStartsWith(n)` |
| Parser.RemoveStep | src/main/java/com/example/Parser.java:42-47 | one turn of the loop of `remove`: a removed token is recorded at its current position and the index steps back; a kept token is passed over |
| Parser.RemoveLoop | src/main/java/com/example/Parser.java:41-49 | the source's index-stepping-back loop computes exactly `remove` |
| Parser.FindAfter | src/main/java/com/example/Parser.java:190-195 | the result is the first position from `i` holding the name, or -1 when there is none; a negative start throws |
| Parser.FindFirst | src/main/java/com/example/Parser.java:183-188 | the result is the first position holding the name, or -1 when no token has it |
| Parser.QueriesAgree | src/main/java/com/example/Parser.java:176-188 | `contains` holds exactly when `findFirst` finds the name, and exactly when some token carries it |
| Parser.ShownAt | src/main/java/com/example/Parser.java:159-164 | the map shows at most one ledger token after a live token, one of an included name recorded just after it |
| Parser.WordsFrom | src/main/java/com/example/Parser.java:157-165 | the map has at least one word per live token |
| Parser.WordsWithoutIncluded | src/main/java/com/example/Parser.java:154-170 | without included names the map shows only the live tokens, one word each and in order |
| Parser.PlainMap | src/main/java/com/example/Parser.java:154-170 | `getMap()` is the list of token names |
| Parser.MapRoundTrip | src/main/java/com/example/Parser.java:154-170 | when the names hold no space, splitting the map at spaces gives its words back |
| Parser.IndexFrom | src/main/java/com/example/Parser.java:83 | `indexOf` from `k` returns the first occurrence at or after `k`, or -1 when the needle occurs nowhere from there |
| Parser.IndexOf | src/main/java/com/example/Parser.java:83-87 | Java's `indexOf(needle, from)` with a negative start counted as 0: the first occurrence from the start, or -1 |
| Parser.Consume | src/main/java/com/example/Parser.java:106-132 | a successful consume takes one token per matched word and moves them out of the list and ledger, the total unchanged; a missing ledger entry or list position throws |
| Parser.ConsumeSpan | src/main/java/com/example/Parser.java:107-132 | without included words, exactly the matched number of live tokens from the start position leave the list, in order |
| Parser.FirstAt | src/main/java/com/example/Parser.java:112-114 | the stream's `findFirst` picks the first ledger entry recorded at the position |
| Parser.Shift | src/main/java/com/example/Parser.java:123-129 | ledger entries recorded after the position move one place up; the others and every token are unchanged |
| Parser.Finds | src/main/java/com/example/Parser.java:75-80 | the `do`-`while` calls `find` at least once, and `ignore` times when `ignore` is above 1 |
| Parser.Locate | src/main/java/com/example/Parser.java:72-96 | a located match has at least one word |
| Parser.Reduce | src/main/java/com/example/Parser.java:103-139 | a reduction takes the consumed tokens out and puts one new token of the rule's name at the match position, on the line of the first consumed token, holding the object the builder made of them; the tokens around it and the ledger are those `consume` left; a bad position throws; no report is lost |
| Parser.IntendedReduction | src/main/java/com/example/Parser.java:103-139 | at the corrected match position and without included names, the matched tokens give way to one token of the rule's name on the first matched token's line, holding what the builder made of exactly those tokens, with the tokens before and after unchanged |
| Parser.Round | src/main/java/com/example/Parser.java:70-141 | a round that finishes leaves the list as it found it; a rejected match raises `ignore` only when there is a checker; no round grows the parser or loses a report |
| Parser.RoundSettles | src/main/java/com/example/Parser.java:76-79 | a round finishes without an exception only when `find` runs dry |
| Parser.ReplaceSettles | src/main/java/com/example/Parser.java:70-141 | a list `replace` returns has no further match, for the rule as called or for its recursive calls without included names |
| Parser.Replace | src/main/java/com/example/Parser.java:70-141 | `replace` never adds tokens, because each reduction puts one token in place of at least one; no report is lost and a raised flag stays raised |
| Parser.IntendedStartsAtMatch | src/main/java/com/example/Parser.java:88-96 | without included names every word is a live token, so the intended start is the match's own word |
| Parser.ConsumeNames | src/main/java/com/example/Parser.java:107-132 | consuming the names of a run of tokens, with no included names, takes out exactly that run and keeps the rest in order |
| Parser.IntendedReducesMatch | src/main/java/com/example/Parser.java:81-132 | with the corrected relocation and no included names, a reduction takes exactly the tokens the pattern matched, and the list becomes the tokens before the match followed by those after it |
| Parser.LocateIntended | src/main/java/com/example/Parser.java:81-96 | with the corrected relocation and no included names, the match is located at its own first word |
| ParserProofs.SpacedCount | src/main/java/com/example/Parser.java:88-92 | each word without spaces adds exactly one space to the map, which the counting loop counts |
| ParserProofs.TallyPlain | src/main/java/com/example/Parser.java:88-96 | without included names the counting loop counts the spaces before the found index |
| ParserProofs.OwnOccurrence | src/main/java/com/example/Parser.java:81-83 | the matched text occurs in the map right after the spaced words before the match |
| ParserProofs.AsWrittenCountsSpaces | src/main/java/com/example/Parser.java:81-96 | with no included names and no skipped match, the source counts the spaces before the first occurrence of the matched text, which is never after the match |
| ParserProofs.SpacesBeforeCut | src/main/java/com/example/Parser.java:88-92 | a cut inside the spaced words before the match counts fewer spaces than there are words, unless it is at their end |
| ParserProofs.AsWrittenRelocation | src/main/java/com/example/Parser.java:81-96 | the source's relocation never lands after the match, and lands on it exactly when the first occurrence of the matched text is the match itself (both directions) |
| ParserProofs.IndexFromFirst | src/main/java/com/example/Parser.java:83 | `indexOf` finds the occurrence at `t` when no earlier position starts with the needle's first character |
| Compiler.RegisteredAppends | src/main/java/com/example/Lexer.java:22-24 | registering entries whose names are all new and pairwise different appends them in order |
| Compiler.InitLexerTable | src/main/java/com/example/Compiler.java:31-81 | after `initLexer` the two recognizer tables hold exactly the registered entries in registration order, since no name is registered twice |
| Compiler.TableNamesDiffer | src/main/java/com/example/Compiler.java:36-80 | the 25 regular-expression names of `initLexer` are pairwise different |
| Compiler.ReturnCheckIntended | src/main/java/com/example/Compiler.java:110-114 | corrected, the `return` checker never throws for a position inside the list, and turns a `return` down exactly when the token two places on exists and is an operator (`OP…`, `EXPONENTIATION`, `COMP`) |
| Compiler.ReturnCheckAgree | src/main/java/com/example/Compiler.java:110-114 | as written and corrected, the `return` checker gives the same answer whenever it is at the start or the token two places on exists |
| Compiler.ProgramCheckMeaning | src/main/java/com/example/Compiler.java:122-126 | an expression becomes a program exactly when nothing precedes it or the name before it has a lower-case letter (both directions) |
| Compiler.Rules | src/main/java/com/example/Compiler.java:89-127 | `parse` makes its 27 `replace` calls in source order |
| Compiler.OperatorOrder | src/main/java/com/example/Compiler.java:100-104 | the operator rules run in binding order: `**`, then `* / %`, then `+ -`, then comparisons, then the logical and bit operators |
| Compiler.OnlyProgramsIncludes | src/main/java/com/example/Compiler.java:90-126 | only the sequencing rule sees removed tokens, and only the line breaks |
| Compiler.ParseCalls | src/main/java/com/example/Compiler.java:89-127 | a `parse` pass never adds tokens and never loses a reported error |
| Compiler.AfterLex | src/main/java/com/example/Compiler.java:83-87 | `afterLex` moves every line break to the ledger in order and leaves none in the list; it answers true exactly when no error is flagged |
| Compiler.AfterParse | src/main/java/com/example/Compiler.java:129-131 | `afterParse` yields the first token's object; for an empty list it throws as written, and corrected it yields the empty `Blocks` |
| CompilerMain.KeptStaysAbsent | src/main/java/com/example/Parser.java:41-58 | dropping the tokens of one name cannot bring in a token of another |
| CompilerMain.LexFailureRaises | src/main/java/com/example/Lexer.java:68-71 | a failed lexing keeps every earlier report and raises the flag |
| CompilerMain.PreparedAbsent | src/main/java/com/example/CompilerMain.java:26-27 | after the blanks are purged and the line breaks removed, neither is left in the list |
| CompilerMain.LexPhase | src/main/java/com/example/CompilerMain.java:21-29 | `lex` returns no parser exactly when an error is flagged; with a parser the errors are unchanged, the list holds no blank and no line break, and the ledger holds only line breaks |
| CompilerMain.LexPhaseKeepsTokens | src/main/java/com/example/CompilerMain.java:21-29 | with no earlier error, `lex` returns a parser exactly when lexing succeeded; weaving the ledger back then gives every non-blank token in order, and the texts rebuild the code |
| CompilerMain.LoopStopsAtFixpoint | src/main/java/com/example/CompilerMain.java:14-17 | the loop ends only at a fixpoint of `parse`: the last pass left the map as it found it |
| CompilerMain.Loop | src/main/java/com/example/CompilerMain.java:14-17 | through the loop the parser's tokens never grow, no report is lost and a raised flag stays raised |
| CompilerMain.Compile | src/main/java/com/example/CompilerMain.java:9-19 | when lexing flags an error `compile` returns the shared empty `Blocks` with those errors; it never loses a report |
| CompilerMain.EmptyCodeLexes | src/main/java/com/example/CompilerMain.java:21-29 | with no error flagged, empty code gives a parser with no tokens and an empty ledger |
| CompilerMain.EmptyLocate | src/main/java/com/example/Parser.java:72-80 | with no tokens, `find` has nothing to match |
| CompilerMain.EmptyParseCalls | src/main/java/com/example/Compiler.java:89-127 | `parse` leaves a list without tokens as it is, whatever its rules |
| CompilerMain.EmptyLoop | src/main/java/com/example/CompilerMain.java:13-17 | the loop of `compile` stops after one pass on a list without tokens |
| CompilerMain.EmptyProgramCompiles | src/main/java/com/example/CompilerMain.java:9-19 | a program that lexes to no tokens throws `IndexOutOfBounds` from `afterParse` as written; corrected, it compiles to the empty `Blocks` |
| CompilerMain.EmptySourceCompiles | src/main/java/com/example/CompilerMain.java:9-19 | the empty source gives that exception as written, and the empty `Blocks` corrected, whatever the lexer table and rules |
| CompilerMain.EmptySourceAsWrittenThrows | src/main/java/com/example/Compiler.java:129-131 | the empty source, compiled with the compiler's own table and rules, throws `IndexOutOfBounds` |
| CompilerMain.EmptySourceIntendedIsEmpty | src/main/java/com/example/Compiler.java:129-131 | corrected, the empty source compiles to the empty `Blocks` |
| CompilerProofs.FirstRegexAt | src/main/java/com/example/Lexer.java:48-55 | the first entry with a non-empty match is the one at `k` when it matches and every earlier one fails |
| CompilerProofs.ByRegexTable | src/main/java/com/example/Lexer.java:39-57 | on input that starts with neither a line break nor a string literal, the first matching entry of the table decides the token |
| CompilerProofs.PowerMisses | src/main/java/com/example/Compiler.java:36-46 | no entry before `EXPONENTIATION` matches `**`, and that entry matches both stars |
| CompilerProofs.PowerBeforeProduct | src/main/java/com/example/Compiler.java:46-47 | `**` is lexed as one `EXPONENTIATION` token and not as two `OP1` tokens |
| CompilerProofs.LiteralsMiss | src/main/java/com/example/Lexer.java:30-37 | an alternation of literal words matches nothing when no word starts with the input's first character |
| CompilerProofs.NumberMiss | src/main/java/com/example/Lexer.java:30-37 | a number pattern matches nothing when the input does not start with a digit |
| CompilerProofs.ElseIfEarlierMiss | src/main/java/com/example/Compiler.java:36-56 | no entry registered before `ELSEIF` matches `else if `, since none starts with `e` |
| CompilerProofs.ElseIfMisses | src/main/java/com/example/Compiler.java:36-57 | no entry before `ELSEIF` matches `else if `, and `ELSEIF` matches all of it |
| CompilerProofs.ElseIfToken | src/main/java/com/example/Lexer.java:39-57 | any input that starts with `else if ` and is not a string literal is lexed as the `ELSEIF` token `else if ` |
| CompilerProofs.ElseIfBeforeElse | src/main/java/com/example/Compiler.java:57-58 | `else if ` is lexed as one `ELSEIF` token and not as `ELSE` |
| CompilerProofs.WhileEarlierMiss | src/main/java/com/example/Compiler.java:36-51 | no entry registered before `WHILE` matches `while `, since none starts with `w` |
| CompilerProofs.WhileMisses | src/main/java/com/example/Compiler.java:36-53 | no entry before `WHILE` matches `while `, and `WHILE` matches all of it |
| CompilerProofs.WhileToken | src/main/java/com/example/Lexer.java:39-57 | any input that starts with `while ` and is not a string literal is lexed as the `WHILE` token `while ` |
| CompilerProofs.WhileBeforeIdentifier | src/main/java/com/example/Compiler.java:53-80 | `while ` is lexed as the keyword and not as an identifier |
| CompilerProofs.NoIfBeforeFive | src/main/java/com/example/Compiler.java:116 | the `if` pattern matches none of the first five words of the map after an `if`, an `else if` and a second `if` |
| CompilerProofs.IfMatchesSecondIf | src/main/java/com/example/Compiler.java:116 | in that map the `if` rule's first match is the second `if`, words 5 to 9 |
| CompilerProofs.ElseIfSpaced | src/main/java/com/example/Parser.java:72-83 | the searched map of `p ELSEIF tail IF tail` holds the matched `IF …` text inside `ELSEIF …`, right after `p ELSE` |
| CompilerProofs.AsWrittenRelocatesIntoElseIf | src/main/java/com/example/Parser.java:81-96 | whatever the branches hold, the source relocates a match of the later `if` to token 1, the `ELSEIF` |
| CompilerProofs.AsWrittenLocatesElseIf | src/main/java/com/example/Parser.java:72-96 | as written, `replace` with the `if` rule places the match of the second `if` at token 1 |
| CompilerProofs.AsWrittenIfTakesElseIf | src/main/java/com/example/Parser.java:106-132 | so the reduction takes the `else if` and its braces, whose names differ from the matched ones, while the second `if` stays in the list |
| CompilerProofs.IntendedIfTakesIf | src/main/java/com/example/Parser.java:106-132 | corrected, the same call takes exactly the second `if` and its braces, whose names are the matched words |
| CompilerProofs.ReturnAtEndAsWrittenThrows | src/main/java/com/example/Compiler.java:110-114 | for `x; return y`, where the list ends in `RETURN expression`, the checker as written reads past the list and throws; corrected it accepts the `return` |
| Binder.Get | src/main/java/com/example/SyntaxTreeBinder.java:11 | `getTokens().get(i)` yields token `i` exactly when it exists, and otherwise throws `IndexOutOfBounds` |
| Binder.ValueAt | src/main/java/com/example/SyntaxTreeBinder.java:32-33 | a value is read from token `i` exactly when the token exists and holds a value node |
| Binder.Body | src/main/java/com/example/SyntaxTreeBinder.java:133-135 | a missing program becomes an empty `Blocks`, so a body is always a `Blocks` |
| Binder.Yield | src/main/java/com/example/Compiler.java:90-93 | a plain builder reports no error, and its node or exception reaches the parser unchanged |
| Binder.NumberExpression | src/main/java/com/example/SyntaxTreeBinder.java:10-12 | `numberExpression` builds the number the first token spells, and fails only without a token |
| Binder.TextExpression | src/main/java/com/example/SyntaxTreeBinder.java:25-28 | `textExpression` builds the first token's text without its first and last characters, and throws for a text shorter than two |
| Binder.TextRoundTrip | src/main/java/com/example/SyntaxTreeBinder.java:25-28 | a quoted literal gives back exactly the text between its quotes |
| Binder.BoolExpression | src/main/java/com/example/SyntaxTreeBinder.java:20-22 | `boolExpression` is true exactly for the text `true` |
| Binder.NullExpression | src/main/java/com/example/SyntaxTreeBinder.java:15-17 | `nullExpression` always yields the shared `Null`, whose data is null |
| Binder.KindOf | src/main/java/com/example/SyntaxTreeBinder.java:37-110 | each operator builder picks one of its own node kinds, and an unknown text falls to its default: `Div`, `Sub`, `GreaterThanOrEqual`, `BitwiseOr` |
| Binder.KindSpelling | src/main/java/com/example/SyntaxTreeBinder.java:37-110 | every kind a builder can make is reached by its spelling, so no branch is dead |
| Binder.OperatorText | src/main/java/com/example/SyntaxTreeBinder.java:37-110 | every builder but `exponentiation` reads the operator text from token 1, and throws when there is no token 1 |
| Binder.Operation | src/main/java/com/example/SyntaxTreeBinder.java:31-110 | an operator node has token 0 as its left operand, token 2 as its right, and the kind token 1 selects; it is built exactly when both operands are values |
| Binder.PrintStatement | src/main/java/com/example/SyntaxTreeBinder.java:113-115 | `print` prints the value of token 1, and is built exactly when token 1 holds a value |
| Binder.Objects | src/main/java/com/example/SyntaxTreeBinder.java:126-128 | the objects of the tokens are collected in order, and the collection fails exactly when one is missing |
| Binder.Programs | src/main/java/com/example/SyntaxTreeBinder.java:122-130 | `programs` drops the separators and puts each remaining token's object into a `Blocks`, in order |
| Binder.CountAfterKept | src/main/java/com/example/SyntaxTreeBinder.java:123-124 | purging semicolons leaves the count of line breaks unchanged |
| Binder.ProgramsCount | src/main/java/com/example/SyntaxTreeBinder.java:122-130 | the `Blocks` has one block per matched token that is not a separator |
| Binder.WhileStatement | src/main/java/com/example/SyntaxTreeBinder.java:138-142 | `whileStatement` loops on the value of token 1 with the program of token 3 as its body, and an empty body when there is no program |
| Binder.LinkAt | src/main/java/com/example/SyntaxTreeBinder.java:153-159 | every link of an `else if` chain is an `If`, and the head is link 0 |
| Binder.Arms | src/main/java/com/example/SyntaxTreeBinder.java:153-159 | a chain read down to depth `d` has at most `d + 1` arms |
| Binder.SetElseAt | src/main/java/com/example/SyntaxTreeBinder.java:159-177 | `setElseCode` on the last link leaves the head's condition, code and marks unchanged |
| Binder.SetElseAtLinks | src/main/java/com/example/SyntaxTreeBinder.java:159-177 | the link at depth `d` gets the new else code, and the arms down to `d` are unchanged |
| Binder.LinkAfter | src/main/java/com/example/SyntaxTreeBinder.java:157-159 | an `If` that is the only block of link `d`'s else code is link `d + 1`, with one more arm |
| Binder.SameBelow | src/main/java/com/example/SyntaxTreeBinder.java:158 | below the head, links and arms depend only on the head's condition, code and else code, and not on its marks |
| Binder.ExtendChainArms | src/main/java/com/example/SyntaxTreeBinder.java:153-160 | an `else if` adds exactly one arm at the end of the chain and keeps the chain open |
| Binder.CloseChainArms | src/main/java/com/example/SyntaxTreeBinder.java:172-178 | an `else` keeps the arms, gives the last link its else code and closes the chain |
| Binder.IfStatement | src/main/java/com/example/SyntaxTreeBinder.java:132-136 | `ifStatement` builds a one-arm open chain on the value of token 1 and the program of token 3 |
| Binder.ElseIfStatement | src/main/java/com/example/SyntaxTreeBinder.java:144-165 | not after an `if` it reports `invalidUseOfElseIfStatement`, and after an `else` it reports `useOfElseIfAfterElse`, in both cases with no object; a result without a report is the chain extended by the link on tokens 2 and 4 |
| Binder.ElseStatement | src/main/java/com/example/SyntaxTreeBinder.java:167-183 | not after an `if` it reports `invalidUseOfElseStatement`; a result without a report is the chain closed with the program of token 3 |
| Binder.ElseIfAppendsArm | src/main/java/com/example/SyntaxTreeBinder.java:144-165 | on an open chain, `else if` appends the arm of tokens 2 and 4 and keeps the chain well formed |
| Binder.ElseClosesChain | src/main/java/com/example/SyntaxTreeBinder.java:167-183 | on a chain, `else` keeps the arms and makes the program of token 3 the final else code |
| Binder.NoElseIfAfterElse | src/main/java/com/example/SyntaxTreeBinder.java:149-152 | once a chain has its `else`, a further `else if` is an error and builds nothing |
| SyntaxTree.DataOf | src/main/java/com/example/SyntaxTree.java:59-190 | numbers, texts and booleans carry their payload; a list carries its elements' data one per element and in order; a map carries a map whose keys are exactly its entries' key data; `Null`, variables and operators carry null data; and data is present exactly for those five literal kinds |
| SyntaxTree.MapData | src/main/java/com/example/SyntaxTree.java:176-186 | the data of a map literal has as keys exactly the data of its entries' keys, later entries overwriting earlier ones as `HashMap.put` does |
| SyntaxTree.ListData | src/main/java/com/example/SyntaxTree.java:160-172 | a list literal carries its elements' data, one per element and in the order given |
| SyntaxTree.ValueHash | src/main/java/com/example/SyntaxTree.java:91-94 | a value with null data hashes to 0 |
| SyntaxTree.EqualValuesHashAlike | src/main/java/com/example/SyntaxTree.java:80-94 | values that are `equals` have the same `hashCode`, as `HashMap` needs |
| SyntaxTree.NullDataEqualsNull | src/main/java/com/example/SyntaxTree.java:80-89 | a variable or an operator, whose data is null, equals `Null` |
| SyntaxTree.KeyIndex | src/main/java/com/example/SyntaxTree.java:80-89 | the entry found for a key is one whose key `equals` it, and none is found only when no key does |
| SyntaxTree.PutSpec | src/main/java/com/example/SyntaxTree.java:178-182 | a `put` into a map literal keeps its keys pairwise unequal, maps the key to the new value, adds an entry only for a new key, and leaves the other keys' entries unchanged |
| SyntaxTree.PutAllDistinct | src/main/java/com/example/SyntaxTree.java:178-182 | any series of `put`s leaves the keys pairwise unequal |
| SyntaxTree.NullKeysCollapse | src/main/java/com/example/SyntaxTree.java:80-94 | two `Null` keys collapse into one entry holding the later value |
| SyntaxTree.EvaluateTarget | src/main/java/com/example/Generator.java:12-52 | `evaluate` reaches a generator method for an operator exactly when the node is an operator, and then the one of its own operator kind |
| SyntaxTree.DispatchIsInjective | src/main/java/com/example/Generator.java:12-52 | distinct node classes reach distinct generator methods: two nodes that dispatch alike are both operators of the same kind, or agree on being values |
| TreePaths.ChildAt | src/main/java/com/example/Generator.java:70-92 | the walk's i-th child of a node is its i-th code block, then its values after the code blocks, and nothing past the last value |
| TreePaths.Children | src/main/java/com/example/Generator.java:70-92 | the walk visits as many children as the node has statements and values |
| TreePaths.ParentOfChild | src/main/java/com/example/Generator.java:70-92 | the `parent` passed with child `i` of the node at `p` is `p` itself |
| TreePaths.AtSnoc | src/main/java/com/example/Generator.java:70-92 | extending a path by one index steps to that child of the node it named, or to nothing when the index is out of range |
| TreePaths.ChildrenSize | src/main/java/com/example/Generator.java:70-92 | a node counts one more than all the children the walk visits |
| TreePaths.ChildSmaller | src/main/java/com/example/Generator.java:64-97 | every child the walk recurses into is strictly smaller than its parent, so the recursion of `runTools` ends |
| ScopeTool.Fresh | src/main/java/com/example/ScopeTool.java:11-14 | a new tool has counter 0, no free ids, no scope maps and no globals |
| ScopeTool.Least | src/main/java/com/example/ScopeTool.java:23 | the minimum of a non-empty id set is in the set and no larger than any member |
| ScopeTool.NextId | src/main/java/com/example/ScopeTool.java:19-26 | with no free id, the counter is handed out and incremented; otherwise the least free id is handed out and removed, the counter unchanged |
| ScopeTool.NextIdScan | src/main/java/com/example/ScopeTool.java:19-26 | the scan over the free set returns its minimum and removes it, or falls back to the counter |
| ScopeTool.NextIdScanAgrees | src/main/java/com/example/ScopeTool.java:19-26 | any id that is least in the free set is the one `NextId` hands out, so the scan and the functional definition agree |
| ScopeTool.UpToLocals | src/main/java/com/example/ScopeTool.java:55-60 | the climb stops at a scope opener or the top, and does not move when it starts at either |
| ScopeTool.ParamIds | src/main/java/com/example/ScopeTool.java:90-95 | the parameter map binds exactly the parameter names |
| ScopeTool.ParamIdsOrdinal | src/main/java/com/example/ScopeTool.java:90-95 | with distinct names, the k-th parameter is bound to -(k+1) |
| ScopeTool.ParamIdsNegative | src/main/java/com/example/ScopeTool.java:90-95 | every parameter id is negative, so parameters never share an id with a local slot |
| ScopeTool.Inherit | src/main/java/com/example/ScopeTool.java:97-104 | copying enclosing scopes' maps never loses a name already bound |
| ScopeTool.InheritWithoutScopes | src/main/java/com/example/ScopeTool.java:97-104 | climbing through nodes none of which opens a scope copies nothing in |
| ScopeTool.OpenBlocks | src/main/java/com/example/ScopeTool.java:87-105 | a `Blocks` gets a scope map of its own and every other scope map and all other state are unchanged |
| ScopeTool.AddFree | src/main/java/com/example/ScopeTool.java:77-81 | the `Free` marker is appended to the block's statements and no other block changes |
| ScopeTool.ProcessBlock | src/main/java/com/example/ScopeTool.java:54-106 | receiver-qualified assignments and statements other than assignments and blocks leave the state unchanged, and a failure always carries the error flag |
| ScopeTool.GlobalDeclaration | src/main/java/com/example/ScopeTool.java:64-67 | a declaration with no scope opener above it only adds its name to the globals |
| ScopeTool.LocalDeclaration | src/main/java/com/example/ScopeTool.java:73-86 | a local declaration takes `nextId()`, stamps it on the node, records it in its scope's map and appends a `Free` with the same id to the enclosing `Blocks` |
| ScopeTool.UndefinedAssignmentFails | src/main/java/com/example/ScopeTool.java:68-72 | an assignment to an unknown name is left alone when the name is global, and otherwise reports `modifiedUndefinedVariable` and stops |
| ScopeTool.ProcessValue | src/main/java/com/example/ScopeTool.java:109-136 | reading a variable changes only its own id stamp and the error state, and an error is raised only for an unqualified variable that is not global |
| ScopeTool.ReadResolution | src/main/java/com/example/ScopeTool.java:109-136 | a read takes its scope's id when the scope binds the name, is left alone when the name is global, and otherwise reports `accessedUndefinedVariable` |
| ScopeTool.DeclareThenRead | src/main/java/com/example/ScopeTool.java:73-128 | a read in the scope of a declaration gets the declaration's id |
| ScopeTool.QualifiedNamesUntouched | src/main/java/com/example/ScopeTool.java:61-112 | reads and assignments with a receiver are never resolved |
| ScopeTool.FunctionBodyOpens | src/main/java/com/example/ScopeTool.java:54-60 | a function's body, processed under the function, is opened as a `Blocks` whose scope is the function |
| ScopeTool.InheritFromFunction | src/main/java/com/example/ScopeTool.java:97-104 | climbing from a function with no scope above it, and no global scope map, copies nothing into the body's map |
| ScopeTool.FunctionBodyScope | src/main/java/com/example/ScopeTool.java:87-104 | a function body's map is what the body already had with the parameters' ids on top |
| ScopeTool.FunctionBodyBindsParameters | src/main/java/com/example/ScopeTool.java:87-96 | opening a function body binds its k-th parameter to -(k+1) |
| ScopeTool.FinalizeBlockAsWritten | src/main/java/com/example/ScopeTool.java:139-145 | leaving a block frees every id in its map, inherited names and parameters included, and drops the map |
| ScopeTool.FinalizeBlock | src/main/java/com/example/ScopeTool.java:139-145 | leaving a block frees exactly the ids its own declarations took, drops its map, and changes nothing else |
| ScopeTool.LeavingScopeRecyclesIds | src/main/java/com/example/ScopeTool.java:139-145 | after a block is left, the next declaration reuses the least id it freed and the counter stays |
| ScopeTool.NextIdNonNegative | src/main/java/com/example/ScopeTool.java:19-26 | while no free id is negative, `nextId()` never hands out a negative id |
| ScopeTool.ProcessBlockKeepsIds | src/main/java/com/example/ScopeTool.java:54-106 | processing a block keeps every free and allocated id non-negative |
| ScopeTool.FinalizeBlockKeepsIds | src/main/java/com/example/ScopeTool.java:139-145 | the corrected finalizer keeps every free id non-negative |
| ScopeTool.AsWrittenFinalizeGivesLocalParameterSlot | src/main/java/com/example/ScopeTool.java:139-145 | for `func f(a) { var x = 0 }` then `func g() { var y = 0 }`, leaving `f` frees -1 and 0 and `y` gets slot -1, a parameter slot |
| ScopeTool.FinalizeGivesLocalFreshSlot | src/main/java/com/example/ScopeTool.java:139-145 | for the same program, the corrected finalizer frees only 0 and `y` gets slot 0 |
| Generator.OpenEvent | src/main/java/com/example/Generator.java:71-88 | the hook that opens a child is made by the walking tool, names that child and sets its `parent` to the walked node |
| Generator.CloseEvent | src/main/java/com/example/Generator.java:71-90 | the hook that closes a child names the same child and parent and is a finalizing hook |
| Generator.VisitStep | src/main/java/com/example/Generator.java:71-91 | each child is opened, walked, and closed before the next child is visited |
| Generator.RunToolsShape | src/main/java/com/example/Generator.java:64-97 | every hook call of `runTools(block)` names a node of the tree at or below the block, with that node's true `parent` |
| Generator.ToolLoopShape | src/main/java/com/example/Generator.java:66-95 | every hook call of the loop over the tools names a node at or below the block, with its true `parent` |
| Generator.PassShape | src/main/java/com/example/Generator.java:66-95 | every hook call of one tool's turn names a node at or below the block with its true `parent`, and is that tool's own unless the children are walked with all tools |
| Generator.VisitShape | src/main/java/com/example/Generator.java:71-91 | every hook call of the walk over the children names a node below the walked one with its true `parent`, and is the walking tool's unless children are walked with all tools |
| Generator.PassByTool | src/main/java/com/example/Generator.java:66-95 | when a tool walks the children itself, every hook call of its turn is its own |
| Generator.ToolMajorOrder | src/main/java/com/example/Generator.java:64-97 | with each tool walking the tree once, no scope hook call comes after an optimizer hook call, and every hook call of the walks from the optimizer's on is the optimizer's |
| Generator.PassChildren | src/main/java/com/example/Generator.java:66-95 | below the root, or at a root that is not a value, a tool's turn is just the walk over the node's children |
| Generator.RunToolsBoth | src/main/java/com/example/Generator.java:64-97 | `runTools` is the scope tool's turn followed by the optimizer's, with each child walked from inside the turn |
| Generator.WalksAnchored | src/main/java/com/example/Generator.java:64-97 | every hook call of the walk as written and of the corrected walk names a node of the tree and that node's true parent |
| Generator.PreorderBelow | src/main/java/com/example/Generator.java:70-92 | every path the walk reaches from a node lies strictly below it |
| Generator.PreorderDistinct | src/main/java/com/example/Generator.java:70-92 | no node is reached twice by one tool's walk over the children |
| Generator.CorrectedVisitsOnce | src/main/java/com/example/Generator.java:64-97 | when each tool walks the tree once, its opening hooks name every node exactly once, in preorder, a root value first |
| Generator.FoldAppend | src/main/java/com/example/Generator.java:64-97 | running two stretches of hook calls is running the first and, unless it threw, the second from where it ended |
| Generator.FoldIdle | src/main/java/com/example/Generator.java:64-97 | hook calls that each leave the tools' state alone leave it alone together |
| Generator.StepEffects | src/main/java/com/example/Generator.java:64-97 | an optimizer hook never throws and leaves the scope state alone; a scope hook leaves the tags alone; only a scope `processBlock` throws, and then with the error flag raised; no hook loses a report |
| Generator.FoldEffects | src/main/java/com/example/Generator.java:64-97 | a run of optimizer hook calls never throws and leaves the scope state alone; a run of scope hook calls keeps the tags; a run that throws contains a scope `processBlock` and leaves the flag raised; no report is lost |
| Generator.CorrectedScopeAlone | src/main/java/com/example/Generator.java:64-97 | with each tool walking once, whether the walk throws, and the error state it ends with, are those of the scope tool's walk alone |
| Generator.AnnotateChildren | src/main/java/com/example/Generator.java:99-102 | writing the tools' extra data into the tree annotates each child in place and in order, and adds after a block's statements the `Free`s recorded for it, nothing else |
| Generator.FreeNodes | src/main/java/com/example/ScopeTool.java:77-80 | each recorded `Free` becomes one `Free` block carrying the variable's name and id, in order |
| Generator.AnnotateQuiet | src/main/java/com/example/Generator.java:99-102 | when the tools wrote no extra data, the backend sees the tree as parsed |
| Generator.QuietStep | src/main/java/com/example/ScopeTool.java:54-148 | a hook call on a node that is neither a variable nor an assignment writes nothing, does not throw and leaves the error state alone |
| Generator.Finish | src/main/java/com/example/Generator.java:99-102 | code is produced exactly when no hook threw, and the error state is the walk's |
| Generator.ToolsIdleWithoutVariables | src/main/java/com/example/Generator.java:99-102 | for a tree without variables both walks leave the errors alone, and `generate` returns what the backend makes of the tree as parsed |
| Generator.GenerateAsWritten | src/main/java/com/example/Generator.java:99-102 | `generate` with the tools walking as written, paired with the corrected back end (`VM.GenerateRoot` with `INPLACE_POW`, in-place stores only for compound operators, widening by `sizeof`, recording kept on): no report is lost, and no code comes back only when an error was flagged |
| Generator.Generate | src/main/java/com/example/Generator.java:99-102 | `generate` with each tool walking once: no report is lost, no code comes back only when an error was flagged, and the errors are exactly those of the scope tool's walk |
| GeneratorProofs.AsWrittenRun | src/main/java/com/example/Generator.java:64-97 | for `if true { var msg = "Hello" }`, the walk as written ends with `msg` declared twice and two `Free`s recorded for slot 0 |
| GeneratorProofs.CorrectedRun | src/main/java/com/example/Generator.java:64-97 | for the same program, the corrected walk ends with one `Free` for slot 0 and slot 0 free again |
| GeneratorProofs.AsWrittenTree | src/main/java/com/example/Generator.java:64-102 | as written, the body the backend sees is the declaration followed by two `Free`s of slot 0 |
| GeneratorProofs.CorrectedTree | src/main/java/com/example/Generator.java:64-102 | corrected, the body the backend sees is the declaration followed by one `Free` of slot 0 |
| GeneratorProofs.AsWrittenWalkFreesTwice | src/main/java/com/example/Generator.java:64-102 | as written, `generate` emits `DELVAR 0` twice for the one variable |
| GeneratorProofs.CorrectedWalkFreesOnce | src/main/java/com/example/Generator.java:64-102 | corrected, `generate` emits `DELVAR 0` once and leaves the error flag as it was |
| VMByteCodeGenerator.DefaultConfig | src/main/java/com/example/VMByteCodeGenerator.java:12-23 | a generator that emits pops pops with `POP`, and one told not to emits nothing for a discarded result |
| VMByteCodeGenerator.Sizeof | src/main/java/com/example/VMByteCodeGenerator.java:36-43 | `sizeof` never exceeds the array length, and while recording it is the length |
| VMByteCodeGenerator.InplaceOpcodeSpec | src/main/java/com/example/VMByteCodeGenerator.java:154-252 | exactly the arithmetic, bitwise-and/or, shift and xor operators have a compound opcode, which differs from the plain one and takes the variable as operand |
| VMByteCodeGenerator.VariableOperand | src/main/java/com/example/VMByteCodeGenerator.java:120-128 | a variable's operand is always data, never an opcode |
| VMByteCodeGenerator.MemberKeySpec | src/main/java/com/example/VMByteCodeGenerator.java:405-406 | a member function is registered under `#name`, and the constructor under `<init>` |
| VMByteCodeGenerator.GenMembers | src/main/java/com/example/VMByteCodeGenerator.java:394-418 | a class counts at most one map item per member |
| VMByteCodeGenerator.NestedWhileLayout | src/main/java/com/example/VMByteCodeGenerator.java:305-307 | a nested loop's code is the body and the condition plus four slots for its two jumps |
| VMByteCodeGenerator.Patch | src/main/java/com/example/VMByteCodeGenerator.java:308-316 | back-patching keeps the code's length |
| VMByteCodeGenerator.Gen | src/main/java/com/example/VMByteCodeGenerator.java:45-458 | every node but a block of statements generates at least one slot |
| VMByteCodeGeneratorProofs.GenWellFormed | src/main/java/com/example/VMByteCodeGenerator.java:45-458 | the code of every node splits cleanly into instructions, and recorded code keeps a placeholder slot after every `continue` and `break` |
| VMByteCodeGeneratorProofs.GenMembersWellFormed | src/main/java/com/example/VMByteCodeGenerator.java:394-418 | the code of a class's members is well formed |
| VMByteCodeGeneratorProofs.GenStatementWellFormed | src/main/java/com/example/VMByteCodeGenerator.java:334-339 | a statement, a value popped by `generatePop` included, generates well-formed code whenever the pop code is well formed |
| VMByteCodeGeneratorProofs.GenStatementsWellFormed | src/main/java/com/example/VMByteCodeGenerator.java:334-339 | the code of a block's statements, laid end to end, is well formed |
| VMByteCodeGeneratorProofs.GenStatementsAppend | src/main/java/com/example/VMByteCodeGenerator.java:334-339 | the code of two runs of statements is the code of the first followed by that of the second |
| VMByteCodeGeneratorProofs.GenerateRootSpec | src/main/java/com/example/Generator.java:99-102 | the code `generate` returns is well formed at top level; a root block is generated as its statements; a root value, with pops on, ends in `POP` |
| VMByteCodeGeneratorProofs.GenFunctionWellFormed | src/main/java/com/example/VMByteCodeGenerator.java:342-351 | a function definition, its body recorded between `REC` and `END`, generates well-formed code |
| VMByteCodeGeneratorProofs.IfLayoutWellFormed | src/main/java/com/example/VMByteCodeGenerator.java:269-287 | an `if` laid out from well-formed condition and branches is well formed |
| VMByteCodeGeneratorProofs.IfLayoutLandsRecording | src/main/java/com/example/VMByteCodeGenerator.java:269-287 | inside a recorded block, with the corrected widening, a false condition resumes right after the then-branch, at the else branch if any, and the then-branch ends with a jump over the else branch |
| VMByteCodeGeneratorProofs.PatchFromStage | src/main/java/com/example/VMByteCodeGenerator.java:308-316 | the back-patching loop run from slot `i` on the array as patched so far finishes the patch of the whole array |
| VMByteCodeGeneratorProofs.LayoutWellFormed | src/main/java/com/example/VMByteCodeGenerator.java:305-307 | the layout of a nested loop over well-formed code is well formed |
| VMByteCodeGeneratorProofs.PatchSpec | src/main/java/com/example/VMByteCodeGenerator.java:308-316 | back-patching rewrites each `continue` or `break` and its placeholder, and no other slot |
| VMByteCodeGeneratorProofs.PatchWellFormed | src/main/java/com/example/VMByteCodeGenerator.java:308-316 | patched code is well formed and holds no `continue` or `break` |
| VMByteCodeGeneratorProofs.PatchedJumpsLand | src/main/java/com/example/VMByteCodeGenerator.java:308-316 | every patched `continue` lands on the loop's condition, every `break` just past the loop, and other slots are unchanged |
| VMByteCodeGeneratorProofs.NestedWhileJumpsLand | src/main/java/com/example/VMByteCodeGenerator.java:299-325 | in a nested `while`, the entry jump lands on the condition, the closing jump on the body, `continue` on the condition and `break` past the loop |
| VMByteCodeGeneratorProofs.OperatorInstructions | src/main/java/com/example/VMByteCodeGenerator.java:45-59 | an operator tagged in place runs its right operand and then the compound opcode on the variable; any other operator runs both operands and then its opcode |
| VMByteCodeGeneratorProofs.InplacePowAsWrittenLosesVariable | src/main/java/com/example/VMByteCodeGenerator.java:179-182 | as written, `x = x ** y` tagged in place emits `POW` with the variable as operand, and since `POW` takes no operand the variable is dropped |
| VMByteCodeGeneratorProofs.InplacePowUpdatesVariable | src/main/java/com/example/VMByteCodeGenerator.java:179-182 | with `INPLACE_POW`, `x = x ** y` runs `y` and then updates `x` in place |
| VMByteCodeGeneratorProofs.AssignmentEndsWithStore | src/main/java/com/example/VMByteCodeGenerator.java:131-152 | the last instruction of an assignment to a plain variable stores into that variable; when the value is not an in-place update it is `SETVAR` after the value |
| VMByteCodeGeneratorProofs.ComparisonAssignmentAsWrittenStoresNothing | src/main/java/com/example/VMByteCodeGenerator.java:131-152 | as written, `x = x < 10`, which the optimizer tags in place, emits `GETVAR x`, `PUT 10`, `LT` and no instruction that stores into `x` |
| VMByteCodeGeneratorProofs.GenIfLayout | src/main/java/com/example/VMByteCodeGenerator.java:269-287 | the code of an `if` is laid out from the code of its condition and branches |
| VMByteCodeGeneratorProofs.IfLayoutTopLevel | src/main/java/com/example/VMByteCodeGenerator.java:269-287 | at top level the jump operands count the opcodes of the code jumped over, one more for the `SKIP` when there is an else branch |
| VMByteCodeGeneratorProofs.IfLayoutInstructions | src/main/java/com/example/VMByteCodeGenerator.java:269-287 | at top level an `if` runs as the condition, a conditional jump over the then-branch (and the `SKIP`), the then-branch, and then the `SKIP` over the else branch |
| VMByteCodeGeneratorProofs.IfJumpsLandTopLevel | src/main/java/com/example/VMByteCodeGenerator.java:269-287 | at top level a false condition resumes right after the then-branch, and the then-branch jumps over the else branch |
| VMByteCodeGeneratorProofs.IfJumpsLandRecording | src/main/java/com/example/VMByteCodeGenerator.java:269-287 | with the corrected widening, a recorded `if` jumps right past the then-branch and its `SKIP` pair |
| VMByteCodeGeneratorProofs.IfElseAsWrittenLandsShort | src/main/java/com/example/VMByteCodeGenerator.java:280-283 | as written, a recorded `if` with an else jumps one slot short, onto the operand of the `SKIP` |
| VMByteCodeGeneratorProofs.IfAsWrittenAgreesAtTopLevel | src/main/java/com/example/VMByteCodeGenerator.java:280-283 | at top level the as-written widening by one is correct, so both layouts agree |
| VMByteCodeGeneratorProofs.ContinueAfterFunctionAsWrittenLosesPlaceholder | src/main/java/com/example/VMByteCodeGenerator.java:342-351 | as written, a function definition in a recorded block turns recording off, so a following `continue` has no placeholder to patch |
| VMByteCodeGeneratorProofs.RecordedStatementsKeepPlaceholders | src/main/java/com/example/VMByteCodeGenerator.java:382-392 | when recording is kept on throughout, every `continue` and `break` of a recorded block has its placeholder |
| VMByteCodeGeneratorProofs.PrintTextCode | src/main/java/com/example/VMByteCodeGenerator.java:289-297 | `print "s"` puts the text and calls the print builtin with a null operand |
| VMByteCodeGeneratorProofs.SimpleIfExample | src/main/java/com/example/VMByteCodeGenerator.java:269-287 | `if true { print "Hello" }` at top level skips the two instructions of the print |
| VMByteCodeGeneratorProofs.IfElseExample | src/main/java/com/example/VMByteCodeGenerator.java:269-287 | with an else branch, the conditional jump skips the print and the `SKIP`, which skips the other print |
| VMByteCodeGeneratorProofs.MapExampleCode | src/main/java/com/example/VMByteCodeGenerator.java:96-110 | a map literal is laid out entry by entry, key before value, then `CREATE_MAP` with the entry count |
| VMByteCodeGeneratorProofs.MapExample | src/main/java/com/example/VMWrapper.java:217-253 | disassembling the map literal's code gives one instruction per opcode with the operand's type code |
| VMByteCodeGeneratorProofs.EncodeExample | src/main/java/com/example/VMWrapper.java:217-253 | laying the map literal's instructions out again gives back its code |
| VMWrapper.InplaceOpcodesNeedParameter | src/main/java/com/example/VMWrapper.java:256-264 | every compound opcode is listed as taking an operand |
| VMWrapper.TypeCode | src/main/java/com/example/VMWrapper.java:221-244 | operands are sent with a type code from 0 to 5, and opcodes have none |
| VMWrapper.Disassemble | src/main/java/com/example/VMWrapper.java:217-253 | the loop over the slots issues exactly the instructions of the walk |
| VMWrapper.Opcodes | src/main/java/com/example/VMWrapper.java:217-253 | there are never more opcodes than slots |
| VMWrapper.OpcodesConcat | src/main/java/com/example/VMWrapper.java:217-253 | the opcodes of joined code are the opcodes of each part |
| VMWrapper.WalkOnePerOpcode | src/main/java/com/example/VMWrapper.java:217-253 | when every operand is present, the walk issues one instruction per opcode, in order |
| VMWrapper.WalkSkipsTail | src/main/java/com/example/VMWrapper.java:217-253 | walking complete code followed by more code walks each in turn |
| VMWrapper.WalkEncode | src/main/java/com/example/VMWrapper.java:217-253 | laying out valid instructions and walking the result gives them back |
| VMWrapper.EncodeWalk | src/main/java/com/example/VMWrapper.java:217-253 | walking canonical code and laying the instructions out again gives the code back |
| VMByteCodeGeneratorProofs.VariableReadInstructions | src/main/java/com/example/VMByteCodeGenerator.java:119-128 | a read with a negative id runs `GETPARAM` with the id negated, one with a slot id `GETVAR` with the slot, and one without an id `GETVAR` with the name |
| VMByteCodeGeneratorProofs.ParameterReadInstruction | src/main/java/com/example/ScopeTool.java:90-95 | a read of a function's k-th parameter, resolved by the scope tool, runs `GETPARAM k+1` |
| VMByteCodeGeneratorProofs.TopLevelWhileInstructions | src/main/java/com/example/VMByteCodeGenerator.java:299-325 | a top-level `while` runs `REC`, the body, `END`, `REC`, the condition, `END`, `WHILE`, the body and condition generated while recording |
| VMWrapper.ParameterlessOpcodes | src/main/java/com/example/VMWrapper.java:256-264 | `ADD`, `POP`, `REC`, `END`, `WHILE`, `RETURN`, `GET` and `SET` take no operand |

## Left out

- Regular expressions: Java's regex engine is not modelled. The lexer's expressions are given as the matchers they denote (literal alternations, the number, identifier and blank patterns). Grammar patterns are small expression trees over token names, matched greedily without backtracking into a finished group. For the compiler's own rules this agrees with Java's backtracking matcher.
- `StringLiteralToken` and the other custom-token classes are not part of this model. The string-literal recognizer is a parameter of the lexer (`LitScanner`).
- The `SyntaxTreeBinder` builders whose source is not part of this model (variables, functions, calls, `continue`, `break`, `return`, value-as-program) are parameters (`Compiler.Unseen`). So are the statement node classes, which are defined from their uses.
- Null objects: a builder that would store `null` in a node is modelled as throwing `NullPointer` at once, not later when the node is used.
- Termination: `Parser.replace` recursion and the `CompilerMain.compile` loop have no bound in the source. They are bounded by `fuel` and `passes`; running out is a separate `OutOfFuel` outcome, and no claim is made about inputs that need more.
- `Errors` is a global static in the source. Here it is a state passed in and out, and the printed messages are not modelled, only the report kinds and the flag.
- `Compiler.Config`: the lexer table is a parameter of the lexer and of the compile pipeline, and `CompileSource` fixes it to the table of `initLexer`.
- `Parser.getParent`, `saveTexts`, `toString`, and the printing in `Utils` (`printError`, `exit`, `IS_AOT`) are not modelled.
- The native virtual machine is not modelled: the `native` methods of `VMWrapper`, `run`'s calls into the VM, and `stackTop`/`pop`/`slice`. Only the walk that `run` and `disassemble` share is modelled, with each disassembled line given as the instruction itself.
- `HashMap` iteration order: a map literal's entries, and the scope maps, are sequences in insertion order. Java's hash order is unspecified.
- Number payloads (`BigDecimal` and `double`) are kept as their text; the compiler does no arithmetic on them.
- The opcode constants carry the numbers 1 to 64 of `VMWrapper`, but their pairwise distinctness is not stated as a lemma.
- `Shell`, `Highlighter`, `Main` and `NativeFeature` (the REPL, syntax colouring, the demo and the native-image hook) are not part of this model.
- In `ScopeTool`, an assignment to an undefined variable reports the error and then dereferences a missing map. The model stops the walk with a `Failed` outcome at that point instead of modelling the `NullPointerException`.
- Operator operands and list elements are datatype fields, so "returned unchanged by the getters" holds by construction and is not restated.
- Lexer.LexFrom: on failure, its own contract places the syntax error somewhere in the remaining input; `LexerRuns.LexFromScans` gives the exact offset, right after the last non-empty scan.
- Text positions are counted in Unicode scalar values, since a Dafny `string` is a sequence of `char`; Java counts UTF-16 code units. For text outside the Basic Multilingual Plane the syntax error offset of `lex` (Lexer.java:59-73), and the positions of `Parser.IndexOf` therefore count each such character once where Java counts two, and `Binder.TextExpression` strips one whole character at each end where Java strips one code unit.

## Findings

| source | as written | input that shows it | evidently intended | confidence | as-written member | corrected member |
|---|---|---|---|---|---|---|
| src/main/java/com/example/Parser.java:75-87 | after matching a rule on the map, `replace` finds where the match starts by searching the map again for the matched text with `indexOf`, which also finds it inside a longer name or at an earlier, rejected place | `if a {} else if b {} if c {}`: the `IF ...` match of the second `if` is found at the end of `ELSEIF ...`, so `ifStatement` receives the `else if` tokens | reduce the tokens of the match that was found | not executed | CompilerProofs.AsWrittenIfTakesElseIf | CompilerProofs.IntendedIfTakesIf |
| src/main/java/com/example/Compiler.java:110-114 | the `return` checker reads the token two places after `RETURN` even when the list ends after the returned expression | `x; return y`: the list becomes `program SEMICOLON RETURN expression` and `get(index + 2)` throws | accept a `return` whose expression ends the list | not executed | CompilerProofs.ReturnAtEndAsWrittenThrows | Compiler.ReturnCheckIntended |
| src/main/java/com/example/Compiler.java:129-131 | `afterParse` returns the object of token 0 without checking that a token is left | the empty source `""`: lexing gives no tokens, and `get(0)` throws | an empty program compiles to an empty `Blocks`, as a failed lex does | not executed | CompilerMain.EmptySourceAsWrittenThrows | CompilerMain.EmptySourceIntendedIsEmpty |
| src/main/java/com/example/ScopeTool.java:139-145 | `finalizeBlock` frees every id in the block's map, including parameter ids (negative) and ids inherited from enclosing scopes | `func f(a) { var x = 0 }` then `func g() { var y = 0 }`: `y` gets id -1, which the back end reads as parameter 1 | free only the ids the block's own declarations took | not executed | ScopeTool.AsWrittenFinalizeGivesLocalParameterSlot | ScopeTool.FinalizeGivesLocalFreshSlot |
| src/main/java/com/example/Generator.java:64-97 | `runTools` recurses into a child from inside the loop over tools, so each subtree is walked again by every tool of every ancestor | `if true { var msg = "Hello" }`: the declaration is processed twice and the body frees slot 0 twice (`DELVAR 0` twice) | each tool walks the tree once | not executed | GeneratorProofs.AsWrittenWalkFreesTwice | GeneratorProofs.CorrectedWalkFreesOnce |
| src/main/java/com/example/VMByteCodeGenerator.java:179-182 | `generatePow` passes `POW` as its in-place opcode, and `POW` takes no operand | `x = x ** y`: the code is `y`, `POW`, `"x"`, and the walk skips the `"x"`, so `x` is never updated | use `INPLACE_POW` | not executed | VMByteCodeGeneratorProofs.InplacePowAsWrittenLosesVariable | VMByteCodeGeneratorProofs.InplacePowUpdatesVariable |
| src/main/java/com/example/VMByteCodeGenerator.java:140-151 | an assignment whose value carries an `inplace` tag emits no store, but the optimizer also tags comparisons and logical operators, which have no compound opcode | `x = x < 10`: the code is `GETVAR x`, `PUT 10`, `LT`, and nothing stores into `x` | omit the store only when the value was compiled to a compound opcode | not executed | VMByteCodeGeneratorProofs.ComparisonAssignmentAsWrittenStoresNothing | VMByteCodeGeneratorProofs.AssignmentEndsWithStore |
| src/main/java/com/example/VMByteCodeGenerator.java:280-283 | with an else branch, the `SKIPIFN` offset is widened by 1 for the `SKIP` pair; while recording, offsets count raw slots and the pair is 2 slots | `while c { if a { print 1 } else { print 2 } }`: the loop body is recorded, and a false `a` lands on the operand of the `SKIP` | widen by the size of the `SKIP` pair in the current counting | not executed | VMByteCodeGeneratorProofs.IfElseAsWrittenLandsShort | VMByteCodeGeneratorProofs.IfJumpsLandRecording |
| src/main/java/com/example/VMByteCodeGenerator.java:342-351 | `generateFunc` sets `recording` to false when it ends instead of restoring the previous value; from then on `sizeof` also measures the rest of an enclosing recorded block in opcodes rather than slots | a function definition followed by `continue` in a recorded loop body: the `continue` gets no placeholder slot, so back-patching overwrites the next slot | restore the recording state the function was generated in | not executed | VMByteCodeGeneratorProofs.ContinueAfterFunctionAsWrittenLosesPlaceholder | VMByteCodeGeneratorProofs.RecordedStatementsKeepPlaceholders |
