# maiden parser, modelled in Dafny

maiden is an interpreter for Rockstar, a programming language whose programs read like song
lyrics. Its parser (`src/parser.rs`) turns program text into a `Program`: a flat sequence of
commands, each tagged with its source line, plus a table of the declared functions. It works
in four stages, and this project models each of them:

1. **Text rewrites.** Every `'s` followed by non-word characters becomes ` is `, and then every
   apostrophe is deleted (`Parser.Normalise`).
2. **Lexing.** nom combinators cut the text into lines of tokens (`Lexer`). They recognise
   keywords and their synonyms, comparison idioms such as `is as high as`, and variables: a
   determiner plus a lower-case word, or a run of Title-Case words. They also recognise
   numbers, quoted strings, comments in parentheses, calls written `X taking Y, Z`, and poetic
   number literals (`X is <words>`).
3. **Per-line assembly.** Adjacent bare words are merged into one `Words` token
   (`Compaction`). A leading `and` and a trailing comma are dropped. The line's symbols are
   then matched against the statement shapes (`Assembler.Statement`, `Assembler.Cascade`).
   Expressions are parsed by operator-precedence climbing (`Expressions`). Poetic number
   literals are evaluated by the word-length digit rule.
4. **Block resolution.** `if`, `while`/`until` and function declarations push their command
   index on one of three stacks. A line holding only a line break or only a comment closes
   the innermost open `if`; when no `if` is open it closes the innermost loop, and when no
   loop is open either it closes the innermost function. Closing a block writes the index of
   the closing command into the opener's end field. `end`/`around we go` closes the innermost
   loop directly.

The pure parts are functions. Each loop in the source is a Dafny method with loop invariants,
proved equal to a specification function: `compact_words`, the digit fold in `evaluate`,
`next_operator`, the nested loops of `parse_expression_1`, the parameter loop and the main
loop of `parse`. The assembler keeps an invariant, `Assembler.WellFormed`, between lines. It
states six things:

- The three stacks hold exactly the open blocks of their kind, in increasing order.
- Every end field that is set points forward to the `EndIf`, `Next` or `EndFunction` that
  closed the block.
- Every `Next` and `Continue` points back at a loop.
- Every function table entry points at its declaration.
- Every `Next` and `Continue` jumps to the innermost loop open at that point. The loop a
  `Continue` jumps to ends after it.
- Every declared name is in the function table, at its last declaration so far.

The invariant makes the source's three "jump to a command of the wrong kind" panics
unreachable. Each line also changes the commands only in a limited way (`Assembler.Extends`):
it appends at most one command, and it may set an unset end field to the position of that
new command.

Files:

- `common.dfy`: the data model (symbols, tokens, expressions, commands, program, errors).
- `lexer.dfy`: the lexer.
- `lexer_facts.dfy`: facts about the lexer: case-insensitive tags, reserved words inside
  Title-Case words, the determiner that shadows a longer one, and the source's lexer tests
  `not_proper_variable` and `split_nothing`, word by word.
- `compaction.dfy`: `compact_words`.
- `expressions.dfy`: integers, poetic numbers, operands and precedence climbing.
- `expression_facts.dfy`: precedence and associativity facts.
- `assembler.dfy`: per-line assembly and the block invariant.
- `program_facts.dfy`: whole-program facts and the source's parse tests at statement level.
- `parser.dfy`: the text rewrites and `parse` itself.

## Model

| member | source | states |
|---|---|---|
| `Lexer.TagNoCase` | src/parser.rs:50-54 | a case-insensitive tag consumes exactly the tag's length and stays within the input |
| `Lexer.Tag` | src/parser.rs:186-188 | a case-sensitive tag consumes exactly the tag, character for character |
| `Lexer.RunEnd` | src/parser.rs:177 | the run it ends is made of characters satisfying the class, and the character after it does not satisfy it |
| `Lexer.TakeWhile1` | src/parser.rs:177 | take_while1 fails on an empty run and otherwise consumes at least one character |
| `Lexer.Spaces1` | src/parser.rs:197 | one or more space characters are consumed |
| `Lexer.Spaces` | src/parser.rs:252 | take_while never moves backwards and stays within the input |
| `Lexer.LineBreak` | src/parser.rs:253 | a line break is exactly one `\n` or `\r` |
| `Lexer.TitleCase` | src/parser.rs:28-35 | a Title-Case word consumes at least one character |
| `Lexer.MoreTitleCase` | src/parser.rs:39-43 | the further words of a proper variable end within the input |
| `Lexer.ProperVariable` | src/parser.rs:36-46 | a proper variable consumes at least one character |
| `Lexer.Determiner` | src/parser.rs:49-55 | a determiner consumes at least one character |
| `Lexer.SimpleVariable` | src/parser.rs:47-60 | a simple variable consumes at least one character |
| `Lexer.VariableName` | src/parser.rs:47-61 | a variable consumes at least one character |
| `Lexer.AtLeastAdjective` | src/parser.rs:95-97 | the adjective of `is as ... as` consumes at least one character |
| `Lexer.LessAdjective` | src/parser.rs:105-107 | the adjective of `is ... than` (less) consumes at least one character |
| `Lexer.GreaterAdjective` | src/parser.rs:115-117 | the adjective of `is ... than` (greater) consumes at least one character |
| `Lexer.AtLeastIdiom` | src/parser.rs:90-101 | the `is as high as` idiom consumes at least one character |
| `Lexer.ThanIdiom` | src/parser.rs:102-121 | the `is less than` and `is greater than` idioms consume at least one character |
| `Lexer.KeywordWord` | src/parser.rs:88-157 | a keyword alternative of `word` consumes at least one character |
| `Lexer.MoreArgs` | src/parser.rs:164-172 | the further call arguments end within the input |
| `Lexer.TakingCall` | src/parser.rs:158-176 | a call consumes at least one character |
| `Lexer.QuotedString` | src/parser.rs:179-184 | a quoted string consumes at least one character |
| `Lexer.ParenComment` | src/parser.rs:185-190 | a comment consumes at least one character |
| `Lexer.ValueWord` | src/parser.rs:158-191 | a value alternative of `word` consumes at least one character |
| `Lexer.Word` | src/parser.rs:88-192 | `word` consumes at least one character |
| `Lexer.PoeticWords` | src/parser.rs:200-206 | the words of a poetic literal end within the input |
| `Lexer.PoeticNumberLiteral` | src/parser.rs:194-226 | a poetic literal consumes at least one character |
| `Lexer.OtherWords` | src/parser.rs:233-241 | every further token of a line carries the line the line started on |
| `Lexer.Line` | src/parser.rs:228-247 | a line has at least one token, consumes at least one character, and all its tokens carry one line number |
| `Lexer.BlankLine` | src/parser.rs:249-257 | a blank line consumes at least its line break |
| `Lexer.SkipBlankLines` | src/parser.rs:261 | skipping blank lines never moves backwards |
| `Lexer.LineAfterBreak` | src/parser.rs:265-271 | a further line has at least one token |
| `Lexer.OtherLines` | src/parser.rs:263-274 | every further line has at least one token |
| `Lexer.Lines` | src/parser.rs:259-289 | when lexing succeeds there is at least one line, every line is non-empty, and lexing stops within the input |
| `LexerFacts.MatchesNoCaseIff` | src/parser.rs:50-54 | a case-insensitive tag matches exactly when every letter of the tag equals the input's letter at that offset after lower-casing |
| `LexerFacts.KeywordIsNoProperVariable` | src/parser.rs:28-35 | a proper variable never starts with a reserved word |
| `LexerFacts.IsabelIsNoVariable` | src/parser.rs:28-35 | `Isabel` is not a variable, because it starts with the keyword `is` |
| `LexerFacts.AShadowsAn` | src/parser.rs:47-60 | after `a` matches, a following letter makes the simple variable fail rather than retry `an` |
| `LexerFacts.AnAppleIsNoVariable` | src/parser.rs:47-60 | `an apple` is not a variable |
| `LexerFacts.NoReservedInitial` | src/parser.rs:63-86 | no reserved word starts with a letter outside `abeimpstuw` |
| `LexerFacts.KeywordInSlice` | src/parser.rs:63-86 | a reserved word at the front of a slice is a reserved word at that position of the whole input |
| `LexerFacts.TitleCaseIsTitleWord` | src/parser.rs:28-35 | a Title-Case word is an upper-case letter and at least one more letter, with no reserved word at its front |
| `LexerFacts.MoreTitleCaseWords` | src/parser.rs:39-43 | every further word of a proper variable is such a Title-Case word |
| `LexerFacts.ProperVariableWords` | src/parser.rs:36-46 | every word of a proper variable is a Title-Case word |
| `LexerFacts.NoKeywordInitial` | src/parser.rs:88-157 | no keyword alternative of `word` matches at a letter that starts none of its keywords |
| `LexerFacts.OnlyContinueStartsWithC` | src/parser.rs:88-157 | at a `c`, only `continue` is a keyword |
| `LexerFacts.UntilKeyword` | src/parser.rs:88-157 | `until` lexes as `Until` when `up`, the earlier keyword with the same initial, does not match |
| `LexerFacts.OneTitleWord` | src/parser.rs:28-61 | one Title-Case word that no other follows is the whole variable name |
| `LexerFacts.NoTakingAfter` | src/parser.rs:158-176 | a variable followed by a space and a word not starting with `t` does not start a call |
| `LexerFacts.VariableWord` | src/parser.rs:158-192 | a variable that is not a keyword, a call or a number lexes as that variable |
| `LexerFacts.LineStopsAt` | src/parser.rs:233-241 | the words of a line stop at a character that is neither a comma nor a space |
| `LexerFacts.CounterStopsAtIs` | src/parser.rs:932-940 | in `Until Counter is Limit` the keyword `is` ends the proper variable `Counter` |
| `LexerFacts.IsWord` | src/parser.rs:932-940 | in `Until Counter is Limit` the third word lexes as `Is` |
| `LexerFacts.UntilWord` | src/parser.rs:932-940 | in `Until Counter is Limit` the first word lexes as `Until` |
| `LexerFacts.CounterVariable` | src/parser.rs:932-940 | in `Until Counter is Limit` the variable at `Counter` is `Counter` alone |
| `LexerFacts.CounterNoKeyword` | src/parser.rs:932-940 | `Counter` is not the keyword `continue` |
| `LexerFacts.CounterNoCall` | src/parser.rs:932-940 | `Counter is` does not start a call |
| `LexerFacts.CounterWord` | src/parser.rs:932-940 | in `Until Counter is Limit` the second word lexes as the variable `Counter` |
| `LexerFacts.LimitWord` | src/parser.rs:932-940 | in `Until Counter is Limit` the last word lexes as the variable `Limit` |
| `LexerFacts.NothingIsAPrefix` | src/parser.rs:942-953 | `nothing` at the front of a longer word lexes as the integer `0` and consumes seven characters |
| `LexerFacts.NothingSplitsOff` | src/parser.rs:942-953 | the letters that follow `nothing` without a space end the line and are left unlexed |
| `Compaction.CompactFromKeepsOthers` | src/parser.rs:295-311 | the tokens that are not `Words` come out unchanged and in order |
| `Compaction.CompactFromKeepsWords` | src/parser.rs:295-317 | the words come out in order, pending words first, none lost |
| `Compaction.CompactFromCompacted` | src/parser.rs:291-319 | no two adjacent `Words` tokens and no empty `Words` token remain |
| `Compaction.FlushedCompacted` | src/parser.rs:300-311 | flushing the pending words before a non-word token keeps the line compacted |
| `Compaction.CompactIsLossless` | src/parser.rs:291-319 | compact_words keeps the other tokens and the words in order and leaves no adjacent `Words` |
| `Compaction.CompactFromSplits` | src/parser.rs:295-311 | a non-`Words` token splits the line in place: the words before it are flushed just before it with its line, and the rest is compacted on its own |
| `Compaction.CompactWordRun` | src/parser.rs:295-317 | a run of `Words` tokens becomes a single `Words` token holding all their words in order, or nothing when there are none |
| `Compaction.CompactWithoutWords` | src/parser.rs:295-311 | a line without `Words` tokens is left unchanged |
| `Compaction.CompactWordsStep` | src/parser.rs:295-317 | one step of the loop keeps the result equal to the compaction of the whole line |
| `Compaction.CompactWords` | src/parser.rs:291-319 | the loop computes the compaction |
| `Expressions.ParseI128` | src/parser.rs:380-384 | an integer that parses lies in the signed 128-bit range |
| `Expressions.ParseI128RoundTrip` | src/parser.rs:380-384 | parsing a decimal rendering gives back the number, for both signs, and a rendering beyond the largest i128 fails |
| `Expressions.Pow10Add` | src/parser.rs:380-384 | powers of ten multiply by adding exponents |
| `Expressions.LeadingDigitBound` | src/parser.rs:380-384 | a run of digits is at least its leading digit times that digit's place value |
| `Expressions.LettersNeverParse` | src/parser.rs:328-331 | a word made only of letters never parses as an integer |
| `Expressions.PoeticNumberBound` | src/parser.rs:333-338 | n words give a number below 10^n |
| `Expressions.PoeticNumberAppend` | src/parser.rs:333-338 | the digits of a concatenation are the first part's digits followed by the second's |
| `Expressions.PoeticDigit` | src/parser.rs:333-338 | the k-th word is the k-th decimal digit, its length modulo 10 |
| `Expressions.LovestruckLadykiller` | src/parser.rs:835-844 | `a lovestruck ladykiller` is 100 |
| `Expressions.Evaluation` | src/parser.rs:321-348 | evaluate succeeds exactly on words and strings, words give an integer, and anything else is `Unimplemented` |
| `Expressions.EvaluateLetterWords` | src/parser.rs:323-339 | lexed words are 0 for the single word `nothing` and their poetic number otherwise |
| `Expressions.Evaluate` | src/parser.rs:321-348 | the loop over the words computes the evaluation |
| `Expressions.VariableReferences` | src/parser.rs:390-395 | call arguments become variable references, one for one |
| `Expressions.Leaf` | src/parser.rs:375-401 | an operand converts exactly when it is an operand symbol and its digits fit in i128; otherwise `Unimplemented` or `ParseIntError` |
| `Expressions.Rank` | src/parser.rs:432 | every operator binds above the lowest precedence |
| `Expressions.RankIsStrict` | src/parser.rs:444-464 | two operators have the same rank only when they are the same operator; `And` binds loosest and `Times` tightest |
| `Expressions.FirstOperator` | src/parser.rs:350-373 | the result is the first operator at or after the index, or none is there |
| `Expressions.NextOperator` | src/parser.rs:350-373 | the scan finds the first operator at or after the index |
| `Expressions.Climb` | src/parser.rs:430-470 | the cursor moves forward only onto operands, advances when the next operator binds, and stops where the next operator binds too loosely |
| `Expressions.Fold` | src/parser.rs:444-468 | the inner loop stops on an operand, at a point where the next operator binds too loosely |
| `Expressions.ParseExpression1` | src/parser.rs:423-471 | the nested loops with their recursion compute the climb |
| `Expressions.ExpressionOf` | src/parser.rs:403-421 | an empty symbol list is an unbalanced expression |
| `Expressions.ParseExpression` | src/parser.rs:403-421 | parse_expression computes the expression of its symbols |
| `ExpressionFacts.ParsedListsEndOnOperands` | src/parser.rs:403-421 | a parsed list starts and ends on an operand |
| `ExpressionFacts.OperatorAfterOperand` | src/parser.rs:350-373 | after an operand the scan stops at the operator that follows it |
| `ExpressionFacts.OperandsWithoutOperators` | src/parser.rs:406-419 | without operators one operand parses as itself and more are unbalanced |
| `ExpressionFacts.TighterOperatorBindsFirst` | src/parser.rs:445-454 | `a op1 b op2 c` with op2 tighter parses as `a op1 (b op2 c)` |
| `ExpressionFacts.LooserOperatorFoldsLeft` | src/parser.rs:432-469 | `a op1 b op2 c` with op2 no tighter parses as `(a op1 b) op2 c` |
| `ExpressionFacts.SkippedOperand` | src/parser.rs:350-373 | an operand between an operand and the operator is skipped |
| `ExpressionFacts.SingleOperator` | src/parser.rs:403-471 | `a op b` parses as the one binary node of the two operands |
| `ExpressionFacts.TrailingOperator` | src/parser.rs:440-442 | an operator with nothing after it is unbalanced |
| `ExpressionFacts.OperatorAsOperand` | src/parser.rs:443 | an operator where an operand is due is unimplemented |
| `ExpressionFacts.LooseOperatorInTheMiddle` | src/parser.rs:423-471 | a looser operator between two tighter ones joins the two sides |
| `ExpressionFacts.LooseMiddleClimb` | src/parser.rs:430-470 | with a looser operator between two tighter ones, the climb from the first operand covers all seven symbols |
| `ExpressionFacts.LooseMiddleTail` | src/parser.rs:430-470 | after folding the first pair, the looser operator takes the tighter right-hand pair as its operand |
| `ExpressionFacts.TightRightOperand` | src/parser.rs:444-468 | the operand after the last tight operator binds to it |
| `ExpressionFacts.NothingIsZero` | src/parser.rs:380-384 | the digits `0` that `nothing` lexes to read as zero |
| `ExpressionFacts.TwoArgumentCall` | src/parser.rs:390-395 | a call with two arguments reads each argument as a variable reference |
| `ExpressionFacts.MidnightTakingMyWorld` | src/parser.rs:846-870 | the symbols of the two-call condition parse as `(call is 0) and (call is 0)` |
| `Assembler.CloseAt` | src/parser.rs:476-488 | closing a block changes the opener and nothing else |
| `Assembler.ParametersAlternate` | src/parser.rs:709-727 | parameters are accepted exactly when variables alternate with `and`, and the names are the variables |
| `Assembler.SymbolsOf` | src/parser.rs:527 | the symbols are the tokens' symbols, one for one |
| `Assembler.BuildNextKeeps` | src/parser.rs:473-494 | a `Next` line closes the innermost loop, which is a loop, and keeps the invariant |
| `Assembler.CloseEndsKeeps` | src/parser.rs:476-488 | closing a block with a terminator keeps every end resolved |
| `Assembler.CloseJumpsKeeps` | src/parser.rs:476-488 | closing a block keeps every `Next` and `Continue` pointing at a loop |
| `Assembler.EndBlockKeeps` | src/parser.rs:555-622 | a lone line break or comment keeps the invariant and changes earlier commands only by setting an unset end |
| `Assembler.StackTopInnermost` | src/parser.rs:555-622 | a stack is empty exactly when no block of its kind is open, and otherwise its top is the open block with the largest index |
| `Assembler.CloseAtClosedBy` | src/parser.rs:476-488 | closing an open block sets its end to the position of the appended closer and keeps every other command |
| `Assembler.EndBlockPriority` | src/parser.rs:555-622 | a lone line break or comment closes the innermost open if with `EndIf`; else the innermost open loop with `Next` back to it; else the innermost open function with `EndFunction`; with nothing open it changes nothing |
| `Assembler.StatementKeeps` | src/parser.rs:528-633 | every statement keeps the invariant and appends at most one command |
| `Assembler.LaterStatementKeeps` | src/parser.rs:555-633 | the blank-line, function-call and remaining arms keep the invariant |
| `Assembler.CascadeKeeps` | src/parser.rs:634-757 | every prefix, infix and suffix statement keeps the invariant |
| `Assembler.LaterCascadeKeeps` | src/parser.rs:691-757 | the `put`, declaration and `give back` arms keep the invariant |
| `Assembler.LastDeclarationWins` | src/parser.rs:728-743 | every declared name is in the table, and no later declaration of the same name exists: the last declaration wins |
| `Assembler.InnermostLoop` | src/parser.rs:548-553 | the top of the loop stack is an open loop, and every loop after it is already closed |
| `Assembler.AppendInnermostKeeps` | src/parser.rs:548-553 | appending a command, a `Continue` only to the innermost open loop, keeps every jump at its innermost loop |
| `Assembler.CloseInnermostKeeps` | src/parser.rs:476-488 | closing the innermost open block keeps every jump at its innermost loop |
| `Assembler.DeclareListedKeeps` | src/parser.rs:728-743 | a declaration entered in the table keeps every declared name listed at or after its declaration |
| `Assembler.DeclareTableKeeps` | src/parser.rs:728-743 | overwriting a name's table entry with the new declaration keeps every entry at a declaration |
| `Assembler.AssembleLineKeeps` | src/parser.rs:514-758 | a line keeps the invariant and changes earlier commands only by setting an unset end |
| `Assembler.AssembleLines` | src/parser.rs:512-759 | the loop over the lines ends in a well-formed state |
| `Assembler.AssembleLinesStep` | src/parser.rs:512-759 | the first line decides, and its error stops the loop |
| `ProgramFacts.ParsedProgramsAreResolved` | src/parser.rs:496-764 | every program that parses has each end pointing forward at its closer, each `Next` and `Continue` at the innermost loop open there, each function at its declaration, and every declared name in the table at its last declaration |
| `ProgramFacts.OnLine` | src/parser.rs:512-527 | a line of one token per symbol, all with that line's number |
| `ProgramFacts.PlainLine` | src/parser.rs:512-527 | a line without bare words, leading `and` or trailing comma is assembled by its statement alone |
| `ProgramFacts.PlainCompact` | src/parser.rs:291-319 | a line without bare words is its own compaction |
| `ProgramFacts.PlainStripped` | src/parser.rs:515-520 | a line that neither starts with `and` nor ends in a comma has nothing stripped |
| `ProgramFacts.OnLineSymbols` | src/parser.rs:527 | the symbols of such a line are the given symbols |
| `ProgramFacts.PlainLineStep` | src/parser.rs:512-527 | a plain line whose statement succeeds leaves the assembler well-formed |
| `ProgramFacts.LinesStep` | src/parser.rs:512-759 | after a line succeeds, the rest of the lines continue from the state it produced |
| `ProgramFacts.PlainLines` | src/parser.rs:512-759 | a run of such lines assembles to the state the last one produced |
| `ProgramFacts.BadFragment` | src/parser.rs:980-993 | `test is a` is a parse error on line 1, because the target is not a variable |
| `ProgramFacts.BadPut` | src/parser.rs:1022-1037 | `put foo into bar` is a parse error on line 1 |
| `ProgramFacts.BadExpression` | src/parser.rs:1010-1020 | `if t is` is an unbalanced expression |
| `ProgramFacts.ThirtyNineDigitsOverflow` | src/parser.rs:380-384 | 39 digits starting with 2 or more never fit in an i128 |
| `ProgramFacts.UnsignedMaxOverflows` | src/parser.rs:995-1008 | the largest u128, written out, does not parse as an i128 |
| `ProgramFacts.TooLongInt` | src/parser.rs:995-1008 | assigning that literal is a `ParseIntError` on line 1 |
| `ProgramFacts.AbsoluteTakesAThought` | src/parser.rs:971-978 | `Absolute takes a thought` declares a function with one parameter, opens its block and enters it in the table |
| `ProgramFacts.WhileOpensLoop` | src/parser.rs:669-679 | a `while` line with a parsing condition appends a loop with no end and pushes it on the loop stack |
| `ProgramFacts.IfOpensBlock` | src/parser.rs:680-690 | an `if` line with a parsing condition appends an If with no end and pushes it on the if stack |
| `ProgramFacts.GreatDavy` | src/parser.rs:955-969 | `While Davy ain't Greatness` opens a loop on `Davy ain't Greatness` whose end is not set |
| `ProgramFacts.BarIsFood` | src/parser.rs:906-919 | `Bar is food` assigns the poetic number 4 |
| `ProgramFacts.OpenIf` | src/parser.rs:680-690 | an `if` on line 1 opens an if block at command 0 |
| `ProgramFacts.OpenLoop` | src/parser.rs:669-679 | a loop inside it opens at command 1 |
| `ProgramFacts.CloseIf` | src/parser.rs:555-583 | the first blank line closes the if, not the loop inside it |
| `ProgramFacts.CloseLoop` | src/parser.rs:583-592 | the second blank line, with no if open, closes the loop |
| `ProgramFacts.AfterIfWellFormed` | src/parser.rs:473-494 | the state after the if keeps the block invariant |
| `ProgramFacts.AfterLoopWellFormed` | src/parser.rs:473-494 | the state after the loop keeps the block invariant |
| `ProgramFacts.AfterFirstBlankWellFormed` | src/parser.rs:473-494 | the state after the first blank line keeps the block invariant |
| `ProgramFacts.AfterSecondBlankWellFormed` | src/parser.rs:473-494 | after the second blank line no block is open and every end is resolved |
| `Parser.NonWordRunEnd` | src/parser.rs:497 | `\W+` stops at the first word character |
| `Parser.DeleteApostrophes` | src/parser.rs:498 | no apostrophe is left |
| `Parser.Normalise` | src/parser.rs:497-498 | the text the lexer sees has no apostrophe |
| `Parser.ReplacePossessiveShift` | src/parser.rs:497 | the rewrite of a suffix depends on the suffix alone |
| `Parser.ReplacePossessiveMatch` | src/parser.rs:497 | `'s`, then a run of non-word characters as long as it goes, is replaced by ` is ` |
| `Parser.ReplaceLoneApostrophe` | src/parser.rs:497 | an apostrophe not followed by `s` and a non-word character is left for the deletion |
| `Parser.NormaliseKeepsPlainText` | src/parser.rs:497-498 | text without an apostrophe reaches the lexer unchanged |
| `Parser.NormalisePossessive` | src/parser.rs:497-498 | `'s` followed by a run of non-word characters becomes ` is `, and the text after the run is rewritten on its own |
| `Parser.NormaliseDropsApostrophe` | src/parser.rs:497-498 | an apostrophe that does not start `'s` plus a non-word character is deleted |
| `Parser.FooIsFood` | src/parser.rs:497-498 | `Bar is foo'd` reaches the lexer as `Bar is food` |
| `Parser.BuildNextInPlace` | src/parser.rs:473-494 | build_next on the local vectors computes build_next |
| `Parser.DeclaredParameters` | src/parser.rs:707-727 | the parameter loop computes the parameter list |
| `Parser.AddStatement` | src/parser.rs:528-633 | the exact-shape arms compute the statement |
| `Parser.AddCascadeStatement` | src/parser.rs:634-757 | the prefix, infix and suffix arms compute the statement |
| `Parser.AddLine` | src/parser.rs:513-527 | one iteration of the loop computes the assembly of the line |
| `Parser.AssembleProgram` | src/parser.rs:505-763 | the loop over the lines computes the program or the first error |
| `Parser.Parse` | src/parser.rs:496-764 | parse returns a lexing failure, the leftover text with its line, the first line error, or the program |

## Left out

- Logging (`debug!`), `print_command` and `print_program` are not modelled. They only format
  output.
- Panics are preconditions. A line that compacts to a lone `and`, and a lone `end` or
  `continue` outside a loop, make the source panic on an out-of-range index or an `expect`.
  `Assembler.Assemblable` and `Parser.ParseNoPanic` exclude these inputs. The three
  "wrong kind" panics are proved unreachable, so they need no precondition.
- `Lexer` character classes are ASCII. The source's `char::is_uppercase`, `is_lowercase` and
  `is_numeric` also accept non-ASCII letters and digits.
- `Parser.RegexWordChar` approximates the regex `\W`: it counts every non-ASCII character as
  a word character.
- `Expressions.Rank` comes from the derived ordering of `SymbolType` in `src/common.rs`, which
  is not part of this model. A derived ordering never ties two variants, so every operator has
  its own rank. The model orders them `And`, `Is`, `Aint`, `>=`, `>`, `<`, `Add`, `Subtract`,
  `Times`, following the operator arms at src/parser.rs:455-464 with `And` first. The source's
  tests fix only `And` < `Is`.
- `Expressions.Evaluation` and `Expressions.Leaf` report the source's `Unimplemented` errors
  (src/parser.rs:345, 398) as `Unimplemented(symbol, line)`. The source's messages carry
  different text (`Evaluate: …`, `Single symbol to expression: …`). The third one
  (src/parser.rs:466, `No operation for …`) has no counterpart. The climb only ever sees one of
  the nine operators there, and the `Operator` type admits only those.
- `Lexer.TagNoCase` folds case for ASCII letters only. nom's `tag_no_case!` lower-cases with
  Unicode `to_lowercase`, so non-ASCII letters that differ only in case also match there.
- `Expressions.Evaluate` does not model the i128 overflow of the digit fold. The fold
  overflows only after 39 words, and the model uses unbounded integers.
- A nom error from `lines` is one `Error.LexFailure`. The conversion of nom errors lives in
  `src/common.rs`, which is not part of this model.
- `UnbalancedExpression` carries the symbol list itself. The source carries the list's
  `Debug` rendering.
- Line numbers are unbounded naturals. The source uses `u32`.
- Function declarations accept only `and` between parameters, as the code does. The lexer
  turns `,` into a `Comma` token, which the parameter loop rejects.
- The lexer tests `not_proper_variable` and `split_nothing` are stated word by word
  (`LexerFacts.UntilWord` to `LexerFacts.LimitWord`, `LexerFacts.NothingSplitsOff`), not as one
  evaluation of `lines` over the whole text. The other lexer tests (`multi_word_quote`,
  `comment_parsing`, `apostrophe_parsing`, `multi_word_proper_variable`) are likewise not stated
  as whole-text evaluations; the parse tests are stated from the symbols of their lines onwards.
