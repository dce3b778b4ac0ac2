# PL/0 toolchain: scanner, parser and P-machine

This project models the three stages of a small PL/0 toolchain written in C, and proves
properties about them.

1. The scanner (`scan.h`) removes `/* ... */` comments from the source text. It then cuts
   the clean text into tokens: identifiers and keywords, numbers, and one- or
   two-character symbols. It writes the lexeme list: each token's id, followed by its text
   for identifiers (2) and numbers (3).
2. The parser (`parse.h`) reads the lexeme list by recursive descent. It generates
   P-machine code into a 500-entry code array and keeps a 2000-entry symbol table. It
   back-patches the frame size of each block and the targets of conditional jumps.
3. The virtual machine (`vm.h`) runs that code. It has the registers PC, BP, SP and IR,
   a 2000-cell stack, static links followed by `base`, and OUT/IN for integers.

The temporary files passed between the stages are replaced by sequences:
- the clean text is a `string`;
- the lexeme list is a `seq<Word>`, where `Word = Int(n) | Name(s)`;
- the code is a `seq<Instruction>`;
- the integers read by IN and written by OUT are sequences.

Each imperative part keeps its C form, and each is proved equal to a functional
reference:
- `Scan.CreateCleanInput` keeps the character loop with its lag and its flags.
- `Scan.NextToken` keeps the token state machine, with a character buffer, a cursor and
  a one-character push-back.
- `Parse.Parser` is a class whose fields are the parser's globals: `token`,
  `codeIndex`, `nextSymbolIndex`, and the arrays `parseCode` and `symbolTable`.
- `Vm.Machine` is a class with the registers and the stack array.
- `Vm.IntToString` fills a character array.

The references are `Scan.CleanOf`, `Scan.Lex`, `Scan.ScanFrom`, the functions of
`ParseSpec` and those of `VmSpec`. The properties are proved about the references.

The C code has undefined behaviour in several places. The model makes each of these an
explicit outcome:
- The machine faults on a stack or code index outside its array, or a division by zero.
- The parser stops with `Undefined` on a read past the last word, on a number token
  whose next word is not an integer (`getNumber` then leaves its result unset), or on a
  symbol-table write past the 2000 entries.
- A write past the 500-entry code array is refused with error 27, one instruction
  earlier than the C guard refuses it (see "## Findings").
- `error(n)`, which calls `exit`, becomes the status `Failed(n)`.

Two behaviours of the code are modelled as written and proved as lemmas:
- **Relational operators are off by one.** `condition` emits `OPR 0 <token id>`
  (`ParseEmit.ConditionEmits`). The
  relational token ids are 9..14, while the machine's comparison codes are 8..13. So `=`
  tests `<>`, `<` tests `<=`, and so on (`VmLemmas.EmittedComparisons`). `>=` becomes OPR 14, which the machine ignores,
  leaving both operands on the stack.
- **Names after `procedure` and `call` are never read.** `getToken` reads words with
  `%d`, which leaves the token unchanged at a name. So every procedure declaration stops
  with error 5, and `call` leaves its name unread.

## Model

| member | source | states |
|---|---|---|
| CArith.CDiv | vm.h:261-264 | C's truncating `/` on the stack's top two values; what it computes is stated by `CDivModTruncate` |
| CArith.CMod | vm.h:272-275 | C's `%`, the dividend minus the divisor times the truncated quotient; stated by `CModMagnitude` and `CDivModTruncate` |
| CArith.CModMagnitude | vm.h:272-275 | C's `%` is the remainder of the magnitudes, carrying the dividend's sign |
| CArith.CDivModTruncate | vm.h:260-275 | C's `/` and `%` truncate toward zero: the remainder is smaller than the divisor in magnitude, has the dividend's sign, and the quotient's magnitude is the magnitudes' quotient |
| CArith.CDivTenAbs | vm.h:444-448 | dividing by 10 shrinks the magnitude to its tenth, and reaches 0 exactly from -9..9 |
| CArith.CDivModNonNegative | vm.h:462-467 | on a non-negative dividend C's `/` and `%` agree with Euclidean division |
| Decimal.NatDigits | vm.h:462-467 | the decimal text of a natural is a non-empty string of digits that starts with '0' only for 0 |
| Decimal.DigitsValueOfNatDigits | vm.h:462-467 | the digits written for n read back as n |
| Decimal.NatDigitsOfDigitsValue | parse.h:489 | a digit string with no leading zero, read as a number and written again, is the same string |
| Scan.CreateCleanInput | scan.h:86-124 | the character loop with the one-character lag writes exactly the clean text `CleanOf(input)` |
| Scan.CleanOf | scan.h:86-124 | the clean text as a function of the input; its meaning is stated by `NoCommentUnchanged`, `CommentDropped` and `UnclosedCommentDropped` |
| Scan.LastCharLags | scan.h:117-122 | after the loop the lagging character is the last one read |
| Scan.CleanSplit | scan.h:96-118 | the loop over a concatenation is the loop over each part in turn, state and output both |
| Scan.PlainStep | scan.h:99-117 | outside a comment, a character that does not complete `/*` writes the previous one and becomes the lag |
| Scan.PlainCopied | scan.h:96-118 | text without `/*` is written through except for its last character, which stays lagging |
| Scan.NoCommentUnchanged | scan.h:96-122 | a non-empty input containing no `/*` is copied unchanged |
| Scan.InsideComment | scan.h:99-112 | after `/`, a run starting with `*` and containing no `*/` opens a comment and writes nothing |
| Scan.PrefixBeforeComment | scan.h:96-117 | the text before a comment's `/` is written out in full |
| Scan.ThroughCloser | scan.h:99-115 | text, then `/*...*/`, writes only the text, with the two closing characters still to be dropped |
| Scan.AfterCloser | scan.h:104-117 | once the two closing characters are dropped, the rest is cleaned as if it stood alone |
| Scan.CommentDropped | scan.h:96-122 | a comment with its delimiters is dropped (`/*/` counts as complete); an input that ends with `*/` keeps its final `/` |
| Scan.UnclosedCommentDropped | scan.h:99-122 | an unclosed comment drops the rest of the input |
| Scan.IsValidSymbol | scan.h:264-284 | a valid symbol character is no letter, digit or space |
| Scan.KeywordsSpelled | scan.h:290-324 | each keyword maps to an id in `odd`..`else` that spells back to it |
| Scan.SymbolsSpelled | scan.h:333-366 | each symbol maps to an id in `+`..`:=` that spells back to it |
| Scan.LookupSpelled | scan.h:287-370 | a table lookup gives the fallback or an id whose spelling is the text looked up |
| Scan.LookupRange | scan.h:287-370 | a table lookup gives the fallback or an id in the table's range |
| Scan.GetId | scan.h:287-370 | the id of a token by its type and text; stated by `GetIdSpelled` |
| Scan.GetIdSpelled | scan.h:287-370 | getID gives a word the keyword id that spells it or 2, and a symbol its id or -99 |
| Scan.SkipSpaces | scan.h:135-138 | the index reached is at the end of the text or at a non-space |
| Scan.SkippedBlank | scan.h:135-138 | everything skipped is whitespace |
| Scan.AlnumEnd | scan.h:166-184 | an identifier run ends at the end of the text or at a character that is no letter or digit |
| Scan.AlnumRun | scan.h:166-184 | the run consists of letters and digits |
| Scan.DigitEnd | scan.h:186-211 | a number run ends at the end of the text or at a non-digit |
| Scan.DigitRun | scan.h:186-211 | the run consists of digits |
| Scan.Lex | scan.h:127-261 | the next token ends within the text and consumes at least one character unless it is EOF |
| Scan.ReadAtResult | scan.h:135-243 | a token read from a non-space consumes at least one character, and its value is the text read when there is no error; otherwise the error is 1 to 4 |
| Scan.LexResult | scan.h:127-261 | EOF exactly when only whitespace is left; a token without error is the text after the skipped blanks; errors are 1 to 4 |
| Scan.WordRead | scan.h:166-184 | an identifier of up to 11 characters is read whole; a longer run is consumed whole with error 3 |
| Scan.NumberRead | scan.h:186-211 | a number of up to 5 digits is read whole; a longer run is consumed whole with error 2 |
| Scan.NumberLetter | scan.h:199-204 | a letter straight after digits gives error 1 and is consumed |
| Scan.SymbolRead | scan.h:213-237 | `<>`, `<=`, `>=`, `:=` are one token; a symbol before a letter, digit, space or symbol ends without consuming it; before anything else it is error 4 |
| Scan.BlankStep | scan.h:138 | before the first non-space, whitespace is skipped |
| Scan.FirstStep | scan.h:138-161 | the first non-space fixes the token type, or gives error 4 |
| Scan.WordStep | scan.h:166-184 | one character of an identifier: append, set error 3 at the 12th, or end the token without consuming |
| Scan.NumberStep | scan.h:186-211 | one character of a number: append, set error 2 at the 6th digit, error 1 on a letter, or end without consuming |
| Scan.SymbolStep | scan.h:213-237 | the character after a symbol: pair it, end before it, or error 4 |
| Scan.ReadDone | scan.h:243-258 | the state the character loop ends in is the token `Read` describes |
| Scan.FirstChar | scan.h:138-161 | the buffer and type after the first non-space character, as `FirstStep` states |
| Scan.WordChar | scan.h:166-184 | the buffer step of an identifier, with push-back, as `WordStep` states |
| Scan.NumberChar | scan.h:186-211 | the buffer step of a number, with push-back, as `NumberStep` states |
| Scan.SymbolChar | scan.h:213-237 | the buffer step of a symbol, with push-back, as `SymbolStep` states |
| Scan.NextToken | scan.h:127-261 | the character loop returns the token and cursor `Lex` defines |
| Scan.ScanStep | scan.h:53-76 | the token loop stops at EOF or at the first error token, and keeps every valid token |
| Scan.ScanNext | scan.h:53-76 | one round of the token loop: the token, and what the rest of the scan is |
| Scan.Scan | scan.h:44-76 | the tokens and error of scanning the clean text of the input, and their lexeme list |
| Scan.ScanClean | scan.h:53-76 | the token loop over clean text gives `ScanFrom` and its lexeme list |
| Scan.ScanFrom | scan.h:53-76 | the tokens kept by the loop and its final error; stated by `ScanTokensValid` and `ScanKeepsText` |
| Scan.LexemeList | scan.h:385-391 | each kept token's id, then its text for ids 2 and 3; stated by `ValidLexeme` and `LexemeListRoundTrip` |
| Scan.ScanAdvance | scan.h:53-76 | one iteration of the token loop keeps the tokens so far plus the rest equal to the whole scan |
| Scan.TokenAppended | scan.h:53-76 | appending a kept token preserves the loop invariant |
| Scan.LexemeListSnoc | scan.h:385-391 | the list of tokens plus one is the list so far plus that token's entry |
| Scan.ScanTokensValid | scan.h:53-76 | every token the scan keeps is well formed, and the error is 0 to 4 |
| Scan.NonBlankAppend | scan.h:135-138 | removing whitespace commutes with concatenation |
| Scan.ScanKeepsText | scan.h:53-76 | without error, the kept tokens' texts, concatenated, are the clean text with its whitespace removed |
| Scan.TokenKeepsText | scan.h:135-243 | skipped blanks plus a token's text account for the consumed characters |
| Scan.LexemeListRoundTrip | scan.h:385-391 | the lexeme list of valid tokens decodes back to their lexemes |
| Scan.ValidLexeme | scan.h:385-391 | an identifier entry is `2 name`, a number entry is `3 value` |
| Scan.LexemeListCons | scan.h:385-391 | the list of a token and more is that token's entry followed by the rest's list |
| Scan.DecodeAfter | scan.h:385-391 | decoding one valid entry and then the rest is decoding the rest with that lexeme in front |
| ParseSpec.GetToken | parse.h:402-407 | reading a token changes only the token and consumes at most one word |
| ParseSpec.IdenName | parse.h:409-421 | reading a name consumes one word, or stops as undefined after the last word |
| ParseSpec.GetNumber | parse.h:484-492 | reading a number consumes at most one word and leaves code and symbols |
| ParseSpec.RelationalOperator | parse.h:423-432 | true exactly for `=`, `<>`, `<`, `<=`, `>`, `>=` |
| ParseSpec.Gen | parse.h:447-459 | one instruction appended, or error 27 with the code unchanged when the array is full (the corrected guard `>= 500`; parse.h:448 tests `> 500`); nothing else changes |
| ParseSpec.Enter | parse.h:434-445 | one symbol appended with the given name, id, level and address; error 28 past address 2000; nothing else changes |
| ParseSpec.IndexOf | parse.h:465-471 | the index of the first entry with the name, or none when no entry has it |
| ParseSpec.Find | parse.h:461-474 | find changes nothing, or stops with error 11 |
| ParseSpec.ConstDeclaration | parse.h:104-129 | one `ident = number` consumes words and never gives back code, symbols or fuel |
| ParseSpec.ConstLoop | parse.h:102-130 | the const loop never gives back code, symbols or fuel |
| ParseSpec.VarDeclaration | parse.h:144-155 | one `ident` of a var declaration consumes words and never gives back symbols |
| ParseSpec.VarLoop | parse.h:142-156 | the var loop never gives back code, symbols or fuel |
| ParseSpec.EndDeclarations | parse.h:133-136 | the closing `;` check keeps the state's growth |
| ParseSpec.Declarations | parse.h:99-163 | the declarations never give back code, symbols or fuel |
| ParseSpec.Program | parse.h:82-90 | a program never gives back code or symbols |
| ParseSpec.Block | parse.h:92-190 | a block never gives back code or symbols |
| ParseSpec.ProcedureLoop | parse.h:166-185 | the procedure loop never gives back code or symbols |
| ParseSpec.AssignmentTarget | parse.h:198-208 | the target of an assignment never gives back code or symbols |
| ParseSpec.WriteStatement | parse.h:252-266 | `write` never gives back code or symbols |
| ParseSpec.ReadStatement | parse.h:268-281 | `read` never gives back code or symbols |
| ParseSpec.CallStatement | parse.h:214-221 | `call` never gives back code or symbols |
| ParseSpec.Statement | parse.h:192-282 | a statement never gives back code or symbols |
| ParseSpec.StatementLoop | parse.h:229-234 | the `;` loop never gives back code or symbols |
| ParseSpec.IfBlock | parse.h:523-543 | an if never gives back code or symbols |
| ParseSpec.WhileBlock | parse.h:499-521 | a while never gives back code or symbols |
| ParseSpec.Condition | parse.h:284-308 | a condition never gives back code or symbols |
| ParseSpec.Expression | parse.h:310-342 | an expression never gives back code or symbols |
| ParseSpec.ExpressionLoop | parse.h:329-341 | the `+`/`-` loop never gives back code or symbols |
| ParseSpec.Term | parse.h:344-364 | a term never gives back code or symbols |
| ParseSpec.TermLoop | parse.h:350-363 | the `*`/`/` loop never gives back code or symbols |
| ParseSpec.Factor | parse.h:366-400 | a factor never gives back code or symbols |
| Parse.Parser.constructor | parse.h:19-27 | the globals start with token 0, no code, no symbols, all words unread |
| Parse.Parser.Error | parse.h:545-637 | error(n) stops parsing with code n |
| Parse.Parser.GetToken | parse.h:402-407 | the token takes the next word when it is an integer; otherwise token and cursor stay |
| Parse.Parser.GetIdenName | parse.h:409-421 | the name read is the next word's text, as `ParseSpec.IdenName` |
| Parse.Parser.GetNumber | parse.h:484-492 | the number read, as `ParseSpec.GetNumber` |
| Parse.Parser.Gen | parse.h:447-459 | writes one instruction at codeIndex and increments it, leaving earlier code; at a full array, error 27 (the corrected guard `>= 500`) |
| Parse.Parser.Patch | parse.h:189 | back-patches one M field in place |
| Parse.Parser.Enter | parse.h:434-445 | writes one symbol at nextSymbolIndex, as `ParseSpec.Enter` |
| Parse.Parser.Find | parse.h:461-474 | the first symbol with the name, or error 11 |
| Parse.Parser.Condition | parse.h:284-308 | the new state is `ParseSpec.Condition` of the old |
| Parse.Parser.Expression | parse.h:310-342 | the new state is `ParseSpec.Expression` of the old |
| Parse.Parser.ExpressionLoop | parse.h:329-341 | the new state is `ParseSpec.ExpressionLoop` of the old |
| Parse.Parser.Term | parse.h:344-364 | the new state is `ParseSpec.Term` of the old |
| Parse.Parser.TermLoop | parse.h:350-363 | the new state is `ParseSpec.TermLoop` of the old |
| Parse.Parser.Factor | parse.h:366-400 | the new state is `ParseSpec.Factor` of the old |
| Parse.Parser.Statement | parse.h:192-282 | the new state is `ParseSpec.Statement` of the old |
| Parse.Parser.StatementLoop | parse.h:229-234 | the new state is `ParseSpec.StatementLoop` of the old |
| Parse.Parser.AssignmentTarget | parse.h:198-208 | the symbol and state of `ParseSpec.AssignmentTarget` |
| Parse.Parser.CallStatement | parse.h:214-221 | the new state is `ParseSpec.CallStatement` of the old |
| Parse.Parser.WriteStatement | parse.h:252-266 | the new state is `ParseSpec.WriteStatement` of the old |
| Parse.Parser.ReadStatement | parse.h:268-281 | the new state is `ParseSpec.ReadStatement` of the old |
| Parse.Parser.IfBlock | parse.h:523-543 | the new state is `ParseSpec.IfBlock` of the old, the JPC patched in the array |
| Parse.Parser.WhileBlock | parse.h:499-521 | the new state is `ParseSpec.WhileBlock` of the old, the JPC patched in the array |
| Parse.Parser.Program | parse.h:82-90 | the new state is `ParseSpec.Program` of the old |
| Parse.Parser.Block | parse.h:92-190 | the new state is `ParseSpec.Block` of the old, the INC patched in the array |
| Parse.Parser.ProcedureLoop | parse.h:166-185 | the new state is `ParseSpec.ProcedureLoop` of the old |
| Parse.Parser.Declarations | parse.h:99-163 | the new state and next address of `ParseSpec.Declarations` |
| Parse.Parser.ConstLoop | parse.h:102-130 | the do-while over constants, as `ParseSpec.ConstLoop` |
| Parse.Parser.VarLoop | parse.h:142-156 | the do-while over variables, as `ParseSpec.VarLoop` |
| Parse.Parser.EndDeclarations | parse.h:133-136 | the `;` after a declaration list, as `ParseSpec.EndDeclarations` |
| Parse.Parser.ConstDeclaration | parse.h:104-129 | one constant, as `ParseSpec.ConstDeclaration` |
| Parse.Parser.VarDeclaration | parse.h:144-155 | one variable, as `ParseSpec.VarDeclaration` |
| Parse.Parse | parse.h:61-72 | the code and status the parser produces are `ParseSpec.Parse` |
| ParseSpec.Parse | parse.h:61-72 | the program parsed from the first word, with code only on success; stated by `ParseLayout.ParseOutcome` |
| ParseSpec.Patch | parse.h:189 | the back-patch of an emitted instruction's M, also at parse.h:520 and 542; stated by `ParseCode.IfBlockJumps`, `ParseCode.WhileBlockJumps` and `ParseLayout.BlockFrame` |
| ParseLemmas.GenGrows | parse.h:447-459 | gen only appends code, and keeps code that fits the array within it |
| ParseLemmas.ConstDeclarationGrows | parse.h:104-129 | a constant only appends code and symbols, with known error codes |
| ParseLemmas.ConstLoopGrows | parse.h:102-130 | the const loop only appends code and symbols |
| ParseLemmas.VarDeclarationGrows | parse.h:144-155 | a variable only appends symbols |
| ParseLemmas.VarLoopGrows | parse.h:142-156 | the var loop only appends symbols |
| ParseLemmas.DeclarationsGrows | parse.h:99-163 | the declarations only append |
| ParseLemmas.WriteStatementGrows | parse.h:252-266 | `write` only appends code |
| ParseLemmas.ReadStatementGrows | parse.h:268-281 | `read` only appends code |
| ParseLemmas.ProgramGrows | parse.h:82-90 | a program only appends code and symbols, fails only with a known code, and keeps code within 500 entries |
| ParseLemmas.BlockGrows | parse.h:92-190 | a block only appends (its patch is inside its own code) |
| ParseLemmas.ProcedureLoopGrows | parse.h:166-185 | the procedure loop only appends |
| ParseLemmas.StatementGrows | parse.h:192-282 | a statement only appends |
| ParseLemmas.AssignmentGrows | parse.h:196-212 | an assignment only appends |
| ParseLemmas.BeginEndGrows | parse.h:223-240 | begin-end only appends |
| ParseLemmas.StatementLoopGrows | parse.h:229-234 | the `;` loop only appends |
| ParseLemmas.IfBlockGrows | parse.h:523-543 | an if only appends (the JPC patch is inside its own code) |
| ParseLemmas.WhileBlockGrows | parse.h:499-521 | a while only appends |
| ParseLemmas.ConditionGrows | parse.h:284-308 | a condition only appends |
| ParseLemmas.ExpressionGrows | parse.h:310-342 | an expression only appends |
| ParseLemmas.ExpressionLoopGrows | parse.h:329-341 | the `+`/`-` loop only appends |
| ParseLemmas.TermGrows | parse.h:344-364 | a term only appends |
| ParseLemmas.TermLoopGrows | parse.h:350-363 | the `*`/`/` loop only appends |
| ParseLemmas.FactorGrows | parse.h:366-400 | a factor only appends |
| ParseCode.FactorPushes | parse.h:366-400 | the code of a factor is postfix code that pushes exactly one value |
| ParseCode.TermPushes | parse.h:344-364 | the code of a term pushes exactly one value |
| ParseCode.TermLoopKeeps | parse.h:350-363 | each `* factor` or `/ factor` consumes the left operand and leaves one value |
| ParseCode.ExpressionPushes | parse.h:310-342 | the code of an expression, unary minus included, pushes exactly one value |
| ParseCode.ExpressionLoopKeeps | parse.h:329-341 | each `+ term` or `- term` consumes the left operand and leaves one value |
| ParseCode.ConditionPushes | parse.h:284-308 | a condition's code leaves one value, or two when it ends in OPR 14 (`>=`) |
| ParseCode.RelationPushes | parse.h:299-306 | two expressions and OPR with the relational token id leave one value, two for `>=` |
| ParseCode.IfBlockJumps | parse.h:523-543 | an if's code holds a JPC, right after the condition's code, that jumps to the end of the statement |
| ParseCode.WhileBlockJumps | parse.h:499-521 | a while's code ends in a JMP to its condition, and its JPC jumps past that JMP |
| ParseLayout.ConstDeclarationEffect | parse.h:104-129 | a constant is read from `2 name 9 3 value`, entered at its address, and stored there by LIT value; STO 0 address |
| ParseLayout.VarDeclarationEffect | parse.h:144-155 | a variable is read from `2 name` and entered at its address; no code |
| ParseLayout.ConstLoopAllocates | parse.h:102-130 | the constants take consecutive addresses in declaration order |
| ParseLayout.VarLoopAllocates | parse.h:142-156 | the variables take consecutive addresses in declaration order |
| ParseLayout.DeclarationsAllocate | parse.h:94-163 | the consts and vars of a block take addresses 3, 4, 5... in order |
| ParseLayout.BlockFrame | parse.h:92-190 | a block's code starts with INC 0 size, where size is 3 plus the number of entries its const and var declarations add to the symbol table, and those entries sit at 3..size-1 |
| ParseLayout.ProgramShape | parse.h:82-90 | a program's code starts with INC and ends with OPR 0 0 |
| ParseLayout.ParseOutcome | parse.h:61-72 | parsing ends with a known error code, or with 2 to 500 instructions from INC to OPR 0 0 (500 under the corrected gen guard); no code is written on error |
| ParseLayout.GenAsWritten | parse.h:447-459 | gen with the guard `codeIndex > 500`: appends unless past 500 |
| ParseLayout.GenAsWrittenOverruns | parse.h:448 | with that guard, a full array of 500 receives a 501st instruction |
| ParseLayout.GenStaysInArray | parse.h:447-459 | with the guard `>= 500`, code never exceeds 500 instructions |
| ParseLayout.ProcedureDeclarationFails | parse.h:166-185 | `procedure name` stops with error 5: the name is never read |
| ParseLayout.CallLeavesName | parse.h:214-221 | `call name` emits nothing and leaves the name as the next word, with token 2 |
| ParseLayout.GetTokenStalls | parse.h:402-407 | on a name, or after the last word, getToken changes nothing |
| ParseLayout.FactorBadStart | parse.h:398-399 | a factor not starting with a name, a number or `(` is error 24 |
| ParseLayout.UndeclaredNameFails | parse.h:461-474 | an undeclared name in a statement or a factor is error 11 |
| ParseLayout.AssignToConstantFails | parse.h:198-201 | assigning to a constant is error 12 |
| ParseLayout.MissingBecomesFails | parse.h:203-206 | an assignment target not followed by `:=` is error 13 |
| ParseLayout.MissingThenFails | parse.h:529-532 | a condition of an `if` not followed by `then` is error 16 |
| ParseLayout.MissingDoFails | parse.h:505-512 | a condition of a `while` not followed by `do` is error 18 |
| ParseLayout.MissingRelationFails | parse.h:295-300 | an expression in a condition not followed by a relational operator is error 20 |
| ParseLayout.MissingRightParenFails | parse.h:386-393 | a parenthesised expression not followed by `)` is error 22 |
| ParseLayout.MissingEndFails | parse.h:223-237 | a `begin` whose statements are not followed by `end` is error 26 |
| ParseEmit.ConditionEmits | parse.h:284-308 | a condition's code ends in OPR 0 ODD after `odd`, otherwise in OPR 0 with the token id (9..14) of the relational operator read |
| ParseEmit.ExpressionSignEmits | parse.h:314-324 | a leading `-` puts OPR 0 NEG right after the term's one-value code; a leading `+` emits nothing |
| ParseEmit.ExpressionLoopEmits | parse.h:329-341 | each round emits the term's one-value code, then OPR 0 ADD for `+` or OPR 0 SUB for `-` |
| ParseEmit.TermLoopEmits | parse.h:350-363 | each round emits the factor's one-value code, then OPR 0 MUL for `*` or OPR 0 DIV for `/` |
| ParseEmit.AssignmentEmits | parse.h:196-211 | an assignment's target is declared and not a constant, and the expression's one-value code is followed by STO 0 and the target's address |
| ParseEmit.WriteEmits | parse.h:252-265 | `write name` emits exactly LOD 0 and the name's address, then OUT 0 0 |
| ParseEmit.ReadEmits | parse.h:268-280 | `read name` emits exactly IN 0 0, then STO 0 and the name's address, constants included |
| ParseLayout.ProgramEnd | parse.h:86-89 | a block not followed by `.` is error 9; otherwise OPR 0 0 is appended |
| VmSpec.Initial | vm.h:44-49 | PC 0, BP 0, SP -1, a zeroed stack of 2000 cells, nothing written |
| VmSpec.Fetch | vm.h:144-148 | IR becomes code[PC] and PC goes up by one, nothing else changes; outside the code, a fault |
| VmSpec.Base | vm.h:320-332 | with level 0 the base is BP |
| VmSpec.Unary | vm.h:238-269 | NEG gives the negation; ODD gives 1 exactly for an odd value, else 0 |
| VmSpec.Binary | vm.h:243-311 | faults exactly on DIV or MOD by 0; comparisons give 0 or 1; EQL and GEQ compare as named |
| VmSpec.ExecuteOpr | vm.h:226-317 | OPR keeps the stack size, IR, input and output |
| VmSpec.Execute | vm.h:151-223 | an instruction keeps the stack size and IR, writes at most one output, and reads at most one input |
| VmSpec.OpToString | vm.h:335-362 | a three-character mnemonic, blank exactly for an unknown opcode |
| VmSpec.EndOfProgram | vm.h:135-141 | the machine stops when SP is -1 and IR is OPR 0 0; stated by `VmLemmas.MainReturnHalts` and `VmLemmas.InitialRuns` |
| VmSpec.Run | vm.h:61-74 | the fetch-execute loop for at most a number of steps; stated by `VmLemmas.RunFacts` and `VmLemmas.StraightLineRun` |
| VmSpec.Vm | vm.h:40-79 | the output and outcome of a run from the initial state; `Vm.RunProgram` is proved equal to it |
| Vm.Machine.constructor | vm.h:44-49 | the machine starts in `VmSpec.Initial` |
| Vm.Machine.EndOfProgram | vm.h:135-141 | true exactly when SP is -1 and IR is OPR 0 0 |
| Vm.Machine.Fetch | vm.h:144-148 | the registers after fetch, or unchanged on a fault |
| Vm.Machine.Base | vm.h:320-332 | the loop follows IR.L static links from BP, as `VmSpec.Base` |
| Vm.Machine.Push | vm.h:158-161 | one value pushed in place |
| Vm.Machine.Load | vm.h:169-172 | LOD pushes the cell at base plus M |
| Vm.Machine.Store | vm.h:175-178 | STO writes the top into base plus M and pops it |
| Vm.Machine.Call | vm.h:181-187 | CAL writes the static link, dynamic link and return address and enters the frame |
| Vm.Machine.JumpIfZero | vm.h:200-204 | JPC jumps to M on 0 and pops |
| Vm.Machine.Write | vm.h:207-210 | OUT appends the top to the output and pops |
| Vm.Machine.Read | vm.h:213-217 | IN pushes the next input integer |
| Vm.Machine.ExecuteOpr | vm.h:226-317 | the OPR sub-operations in place, as `VmSpec.ExecuteOpr` |
| Vm.Machine.Arithmetic | vm.h:243-311 | a binary OPR pops one and writes the result in place |
| Vm.Machine.Execute | vm.h:151-223 | the instruction in IR, in place, as `VmSpec.Execute`; unchanged on a fault |
| Vm.Machine.Run | vm.h:61-74 | the fetch-execute loop reaches the state and outcome of `VmSpec.Run` |
| Vm.RunProgram | vm.h:40-79 | the output and outcome of running the code from the initial state |
| Vm.IntToString | vm.h:424-476 | "0" for 0, otherwise the decimal digits without leading zeros, with '-' for a negative |
| Vm.DigitCount | vm.h:443-448 | the loop counts the decimal digits of the number |
| Vm.WriteDigits | vm.h:461-467 | the loop writes the digits of the number right-aligned in the buffer |
| VmLemmas.BaseSplit | vm.h:320-332 | following a+b static links is following a, then b more |
| VmLemmas.BaseOne | vm.h:325-329 | one static link is the cell at BP |
| VmLemmas.CallReturn | vm.h:231-235 | RET after a CAL whose frame is intact restores the caller's PC, BP and SP |
| VmLemmas.CallWrites | vm.h:181-187 | CAL writes base(L), BP and PC at SP+1..SP+3 and no other cell, keeps SP, sets BP to SP+1 and PC to M |
| VmLemmas.OneCellWritten | vm.h:158-217 | an instruction other than CAL changes at most one stack cell |
| VmLemmas.RegisterEffects | vm.h:158-217 | LIT/LOD/IN push, STO/JPC/OUT pop, INC adds M, JMP sets PC, JPC jumps only on 0, binary OPR pops one and stores the result, RET restores the frame |
| VmLemmas.UnknownDoesNothing | vm.h:313-315 | an unknown opcode, or OPR with M outside 0..13, changes nothing |
| VmLemmas.MainReturnHalts | vm.h:231-235 | OPR 0 0 with BP 0 ends the program |
| VmLemmas.InitialRuns | vm.h:47-61 | the machine does not stop before its first instruction |
| VmLemmas.RunFacts | vm.h:61-74 | a run halts only at the end of the program, keeps the stack size, only appends output and only consumes input |
| VmLemmas.ExpressionStepAgrees | vm.h:158-311 | each instruction of expression code moves SP by the depth change the parser's code is proved against |
| VmLemmas.StraightLineRun | vm.h:61-74 | straight-line code from depth d to e runs to its end with SP moved by e-d, or faults |
| VmLemmas.ExpressionEvaluates | parse.h:310-342 | the code the parser emits for an expression, run by the machine, pushes exactly one value or faults |
| VmLemmas.EmittedComparisons | parse.h:302-306 | the relational token ids run as the next comparison: `=` as `<>`, `<>` as `<`, `<` as `<=`, `<=` as `>`, `>` as `>=`; `>=` as no operation |
| VmLemmas.OpToStringDistinct | vm.h:335-362 | the ten opcodes have distinct mnemonics |

## Left out

- The command-line driver `compile.c` is not part of this model.
- File plumbing is not modelled: the temporary files, `fopen` and `fseek`, `writeMCode`, and `readCode` with its unchecked 500-entry buffer. Sequences pass between the stages instead.
- Trace rendering is not modelled: `startStackTrace`, `stackToString` and the trace lines of the run loop. `opToString` and `intToString` are modelled, but not their use there.
- The lexeme table file (`startLexemeTable`, `writeLexemeTable`) is not modelled, since it repeats the lexeme list as formatting only.
- The wording of `printError`, of `error` and of the IN prompt is left out; only the numeric codes are kept.
- `malloc` and `free`, and the empty stubs `symboltype` and `symbollevel`, are left out.
- Integers are mathematical: C `int` overflow and `num *= -1` on INT_MIN are not modelled.
- Characters are Dafny `char`; `ctype` on negative characters is not modelled.
- Scan.Scan: requires a non-empty input, since the C code writes the byte `(char)-99` for an empty one.
- The length of names is not bounded by the parser's 12-byte buffers; the scanner already limits identifiers to 11 characters.
- IN at the end of the input pushes without writing the cell, as a failed `scanf` leaves it. Input that is not an integer is not modelled.
- The parser's recursion is bounded by fuel. A run out of fuel ends with `OutOfFuel`, which the C code never does: there a stalled `getToken` can recurse without end.
- The machine's run is bounded by a step count. The outcome `OutOfSteps` stands for a program that has not yet stopped.
- ParseSpec grammar functions: their own contracts state only that the state grows. What they emit is stated by the lemmas of ParseEmit, ParseCode and ParseLayout: the declarations' LIT/STO, the frame INC, the jumps of `if` and `while`, the last instruction of a condition, expression, term, assignment, `write` and `read`, and the stack depth of expression code. Error codes 2, 3, 4, 6, 14 and 28 and the `;` errors of declarations have no lemma of their own; their branches are the grammar functions' bodies.
- ParseSpec.Gen: uses the corrected guard `codeIndex >= 500` and raises error 27 at a full array, where parse.h:448 writes a 501st instruction past the array and raises error 27 only at the next `gen` (see "## Findings"). The rest of the parser model uses this corrected `gen`.
- Parse.Parser.Gen: the same corrected guard, proved equal to ParseSpec.Gen.
- ParseLayout.ParseOutcome: its bound of 500 instructions, like the 500 bound of ParseLemmas.GenGrows and ParseLemmas.ProgramGrows, holds for the corrected guard; with the guard as written a parse can end with 501 instructions.

## Findings

| source | as written | input that shows it | evidently intended | confidence | as-written member | corrected member |
|---|---|---|---|---|---|---|
| parse.h:448 | `gen` raises error 27 only when `codeIndex > MAX_CODE_LENGTH`, so at codeIndex 500 it writes `parseCode[500]`, one past the 500-entry array | a program whose parse has emitted 500 instructions and emits one more | refuse at `codeIndex >= MAX_CODE_LENGTH` | high (not executed) | ParseLayout.GenAsWrittenOverruns | ParseLayout.GenStaysInArray |
