# express.c in Dafny

A model of `express.c`, a small C library that compiles an infix expression into reverse Polish
notation (RPN) and runs the result on a value stack. It handles arithmetic, bitwise, logical,
comparison and regex operators, string and number literals, host-supplied variables, and eight
built-in functions (`strcmp`, `strlen`, `strstr`, `pow`, `in`, `case`, `time`, `substr`).

The model follows the library's own layers:

- `values.dfy`: the value type `token_value` (TV_NONE, TV_NUM, TV_STR) and C strings.
  - C strings are modelled as pointers: either NULL, or an address in a region plus the
    characters from there to the NUL.
  - Also here: the coercion macros `NUM`, `STR`, `LONG` and `COMP`, the `(long)` cast, and the
    sign of `strcmp`.
- `tokens.dfy`: the token kinds, the `level` table and `ISLOW`, `token_params`, `token_len`, the
  built-in registry `token_funcs` and `check_function`.
- `scanner.dfy`: `skip_blank`, `token_type` (including the `+`/`-` sign rule), `parse_number`,
  `find_quot`, `parse_str` and `parse_id`. The pure ones are functions; their loops are methods
  proved equal to them.
- `compiler.dfy`: the shunting-yard steps `opera_push`, `argument_push` and `parenth_end`, the
  `express_parse` driver and the `check_RPN` validator.
  - Each step is a method on the output and working-stack sequences, proved equal to a
    specification function.
  - Lemmas state what each step moves, counts or rejects.
- `literals.dfy`: `copystr`'s de-escaping, as a write loop into an array, and the string-buffer
  layout `express_create` builds.
- `builtins.dfy`: what each instruction of `express_calculate` computes.
  - This covers the `NUM_OPT`/`STR_OPT` operators, `NOT_OPT`, `FETCH_OPT`, `REGEX_OPT`'s guard
    and every `fn_*` built-in.
  - Effects that C leaves undefined are an explicit `UB` outcome.
- `evaluator.dfy`: the compiled expression object, modelled as a class with fields.
  - Fields: `rpn`, `strbuff`, `stack` and the scratch list `list`.
  - Methods: `express_create`, `express_alloc`, `bufflist_clean` and `express_calculate`.
  - The evaluator is proved equal to a stack-machine function `RunFrom`. Its properties are
    stated for any instruction semantics and instantiated with the library's own.

Modelling conventions:

- Numbers are `real`. `strtod`/`atof`/`atol`, the double operators `+ - * /`, `pow`, the regex
  matcher and the clock are fields of a `Libc` record of functions given as a parameter.
- A token's `nparam` is an `unsigned char`: incrementing it wraps modulo 256 (`IncByte`).
- `check_RPN`'s counter is a `size_t`, and `SizeSub` models `n -= nparam - 1` on it.
  - The `int` `nparam - 1` is converted to `size_t`, so for an operand (nparam 0) the C
    subtracts SIZE_MAX and gains 1 only through the wrap-around modulo 2^64.
  - `SizeSub` computes the same wrapped value and shows it equals `n - nparam + 1` wherever that
    is in range.
- `express_parse` cuts a string literal with `parse_str` as written (`ParseStr`), the case
  described under "## Findings" included. `ParseStrIntended` is the corrected scan, and the two
  are proved equal on every literal outside that case.
- Undefined behaviour becomes the `Undefined` evaluation; a failed `assert` becomes `Aborted`.
- A parse that would loop forever becomes the `Stalls` outcome.

Behaviour of the code that the model states rather than hides:

- **An identifier starting with `_` or `$` never advances the cursor.**
  - `token_type` starts an identifier on those characters, but `parse_id`'s loop accepts
    neither.
  - The result is a zero-length variable token, and `express_parse` repeats the same step
    forever (`ParseIdStalls`, `StallRepeats`).
- **A `(` below the top of the working stack is drained into the output.**
  - `check_RPN` counts such a `(` as an operand, and `express_calculate` then reaches its
    unknown-kind assert.
  - `1+(!` compiles with `(` among its instructions (`CompileDrainsOpen`), and its run reaches
    that assert (`RunAbortsAtDrainedOpen`).
  - A compiled expression without a `(` never aborts (`RunAbortsOnlyWithOpen`).
- **`+`/`-` after a string literal always start a number** (`SignDisambiguation`), so `'5'+3`
  never compiles (`CompileStringPlusRejected`).
- **`case` and `!` take an empty string as true**; only a NULL string is false
  (`CaseEmptyIsTrue`, `NotNot`).
- **A `strstr` miss yields a TV_STR value holding NULL** (`StrstrFindsFirst`).
- **The escaped literal of a text ending in a backslash does not compile.**
  - `"a\\"` is rejected by `parse_str` (`ParseStrBackslashExample`), so `express_create`
    returns NULL for it (`CompileBackslashLiteralRejected`); see "## Findings".
- **A result pointing into the middle of a scratch block is left dangling.**
  - `bufflist_clean` keeps a block only when the result points at its start, so for
    `strstr(substr('abc', 0), 'b')` the block holding `abc` is freed while the result still
    points into it (`SurvivorsNeedBufferStart`, `RunKeepsOnlyResultBlock`).

## Model

| member | source | states |
|---|---|---|
| Values.Trunc | express.c:101 | the `(long)` cast of a double truncates toward zero: the floor of a non-negative x and the ceiling of a non-positive one |
| Values.StrOf | express.c:100 | STR(n) is the static "" for a non-string and NULL only for a TV_STR holding NULL |
| Values.LongOf | express.c:101 | LONG(n) is the truncated number when it fits a long, 0 for TV_NONE or a NULL string, and always a long when defined |
| Values.StrCmp | express.c:127-131 | the sign of strcmp is -1, 0 or 1 |
| Values.StrCmpZeroIffEqual | express.c:103 | strcmp is 0 exactly when the two strings are equal |
| Values.StrCmpAntisymmetric | express.c:103 | swapping strcmp's arguments negates its sign |
| Values.Compare | express.c:102-103 | COMP compares numerically when either side is TV_NUM; it is undefined exactly when neither is and one STR is NULL |
| Values.CompareStringsEqual | express.c:102-103 | `==` on two non-NULL strings holds exactly when their characters are equal |
| Values.CompareMixedIsNumeric | express.c:99-103 | `==` between a string and a number compares atof of the string with the number |
| Tokens.IsLowByAssociativity | express.c:450 | ISLOW: a binary operator gives way to stacked operators of equal or higher level, `!` and `~` only to strictly higher ones, and none to `(` |
| Tokens.TokenParams | express.c:409-416 | an operator takes at most two operands; operands take none |
| Tokens.TokenLen | express.c:371-379 | every token is at most two characters wide in the cursor advance |
| Tokens.IncByte | express.c:70-79 | the unsigned-char nparam increments by one below 255 and stays below 256 |
| Tokens.CheckFunctionIsLookup | express.c:231-255 | check_function's first-letter dispatch returns row id exactly when the name is that row's name |
| Tokens.CheckFunctionResult | express.c:231-255 | check_function returns 0 or a valid row whose name is the given one |
| Scanner.SkipBlanks | express.c:271-276 | skip_blank stops at the first non-space at or after i and skips only spaces |
| Scanner.SkipBlank | express.c:271-276 | the loop returns SkipBlanks |
| Scanner.IdentEnd | express.c:330-331 | parse_id's loop stops at the first character that is not alphanumeric or '.', accepting only such characters |
| Scanner.ScanIdent | express.c:330-331 | the loop returns IdentEnd |
| Scanner.TokenType | express.c:382-406 | token_type returns a string literal exactly on a quote and an identifier exactly on a letter, '_' or '$'; the token fits in the text; never a function |
| Scanner.SignDisambiguation | express.c:392-393 | `+`/`-` are binary exactly after `)`, a number or a name; otherwise (after a string too) they start a number |
| Scanner.ParseNumber | express.c:285-295 | parse_number succeeds exactly when strtod consumes something, and then yields strtod's value and moves past it |
| Scanner.Strchr | express.c:312 | strchr finds the first occurrence at or after i, or reports that there is none |
| Scanner.QuoteScan | express.c:297-308 | find_quot returns a double quote at or after i; every quote it passes over, and every quote when it returns NULL, is preceded by a backslash |
| Scanner.FindQuot | express.c:297-308 | the loop returns QuoteScan |
| Scanner.QuoteScanReaches | express.c:297-308 | the first quote after i ends the scan unless it is preceded by a backslash, in which case the scan goes on after it |
| Scanner.ParseStr | express.c:310-322 | parse_str as written spans from the opening quote to a matching closing quote; a single-quoted literal succeeds exactly when another `'` follows, and its body holds none; a double-quoted body ends at or after find_quot's quote |
| Scanner.ParseString | express.c:310-322 | the method returns ParseStr |
| Scanner.ParseStrIntended | express.c:297-322 | the corrected scan: a double-quoted literal ends at find_quot's quote searched from just after the opening quote, and fails exactly when there is none; a single-quoted one as parse_str |
| Scanner.ParseStringIntended | express.c:310-322 | the method with find_quot from the start returns ParseStrIntended |
| Scanner.ParseStrAsIntended | express.c:310-322 | parse_str as written agrees with the corrected scan except when strchr's first quote is the closing one and a backslash stands before it |
| Scanner.ParseStrOvershoots | express.c:312-314 | in that case parse_str fails or ends past the literal the corrected scan finds |
| Scanner.ParseId | express.c:325-347 | parse_id yields a call exactly when `(` follows the name after blanks and check_function knows the name, fails exactly when it does not, and otherwise yields a variable spanning the name; the cursor ends after the blanks that follow the name |
| Scanner.ParseIdent | express.c:325-347 | the method returns ParseId |
| Scanner.ParseIdFindsFunction | express.c:330-341 | a registered function name followed, after blanks, by `(` gives a call token with that name's id, the cursor at the `(` |
| Scanner.ParseIdStalls | express.c:325-347 | a name starting with '_' or '$' (and only such a name) gives an empty variable token and leaves the cursor where it was |
| Compiler.Kept | express.c:451-459 | the entries opera_push keeps are those below the first one from the top that the operator does not give way to |
| Compiler.OperaPushMoves | express.c:451-459 | opera_push moves the stack entries above Kept to the output, top first, then pushes the operator with its arity |
| Compiler.OperaPushStopsAtOpen | express.c:54-68 | opera_push never pops past the nearest `(` |
| Compiler.OperaPush | express.c:451-459 | the loop computes OperaPushSpec |
| Compiler.ArgumentPushCounts | express.c:418-429 | a comma succeeds exactly when a function token lies directly beneath the nearest `(`; it moves the operators above the `(` to the output and bumps that function's count |
| Compiler.ArgumentPush | express.c:418-429 | the loop computes ArgumentPushSpec |
| Compiler.ParenthEndNeedsOpen | express.c:431-448 | `)` succeeds exactly when a `(` is on the working stack |
| Compiler.ParenthEndCloses | express.c:431-448 | `)` moves the operators above the nearest `(` to the output and drops the `(`; a function beneath it gets its last argument counted (unless the call is empty) and moves to the output |
| Compiler.ParenthEnd | express.c:431-448 | the loop computes ParenthEndSpec |
| Compiler.OperaPushEmits | express.c:451-459 | opera_push leaves only well-formed tokens in both buffers |
| Compiler.ArgumentPushEmits | express.c:418-429 | argument_push leaves only well-formed tokens in both buffers |
| Compiler.ParenthEndEmits | express.c:431-448 | parenth_end leaves only well-formed tokens in both buffers |
| Compiler.DepthSnoc | express.c:355-364 | each instruction changes check_RPN's counter by 1 - nparam, or by 1 for an operand |
| Compiler.SizeSub | express.c:363 | `n -= nparam - 1` in size_t arithmetic stays a size_t and equals n - nparam + 1 wherever that is in range, an operand gaining 1 through the wrap-around |
| Compiler.CheckRpn | express.c:350-368 | check_RPN accepts exactly when every instruction has its operands, every function's count lies in its registry range, and one value remains |
| Compiler.AcceptedDepth | express.c:350-368 | on an accepted RPN the count after i instructions lies in [1, i] |
| Compiler.SameShapeAccepts | express.c:589-598 | acceptance depends only on kinds, counts and function ids, so the copy express_create makes is accepted too |
| Compiler.Finish | express.c:504-511 | the end check rejects a `(` at the top; otherwise it accepts exactly when check_RPN accepts the output followed by the stack drained top first, and returns that RPN |
| Compiler.OperandStep | express.c:472-483 | one operand step advances the cursor and adds exactly one token; its failures are never acceptance |
| Compiler.SymbolStep | express.c:484-499 | one symbol step advances the cursor and adds at most one token; its failures are never acceptance |
| Compiler.Step | express.c:465-501 | one loop pass advances the cursor, adds at most one token, and accepts only what check_RPN accepts |
| Compiler.StallRepeats | express.c:467-502 | a stalled pass is a '_' or '$' name, and the next pass at the same cursor stalls again |
| Compiler.StepNumberAt | express.c:475-478 | one pass over a number strtod converts appends its value to the output and moves the cursor past what strtod read |
| Compiler.ParseNumberFailsAt | express.c:475-477 | a number strtod cannot convert fails the whole parse |
| Compiler.StepStringAt | express.c:480-483 | one pass over a string literal parse_str accepts appends its token and moves past the quote parse_str ends it at |
| Compiler.ParseStrFailsAt | express.c:480-482 | a string literal parse_str rejects fails the whole parse |
| Compiler.CompileBackslashLiteralRejected | express.c:310-322 | `"a\\"`, the escaped literal of `a\`, does not compile, since parse_str as written rejects it |
| Compiler.StepOperatorAt | express.c:495-499 | one pass over an operator applies opera_push and moves the cursor by the operator's width |
| Compiler.StepOpenAt | express.c:491-499 | one pass over `(` pushes an OP_BEG and moves one character |
| Compiler.StepCloseAt | express.c:487-490 | one pass over a `)` that finds its `(` applies parenth_end and moves one character |
| Compiler.ParseEndAt | express.c:468-469 | at the end of the text the loop stops and the final drain and check decide |
| Compiler.FinishOperandsOnly | express.c:350-368 | two or more operands with no operator between them never pass check_RPN |
| Compiler.FinishDrainsOpen | express.c:504-511 | draining `+ ( !` after the operand 1 puts the `(` into the output, and check_RPN accepts it |
| Compiler.CompileMultiBindsTighter | express.c:462-512 | `2+3*4` compiles to `2 3 4 * +` whenever strtod reads the three digits |
| Compiler.CompileSignedOperand | express.c:462-512 | `3+-2` compiles to `3 -2 +`: the `-` after an operator starts a number |
| Compiler.CompileBracketsGroup | express.c:462-512 | `(2+3)*4` compiles to `2 3 + 4 *` |
| Compiler.CompileStringPlusRejected | express.c:462-512 | `'5'+3` is rejected whatever strtod does: the `+` after a string starts a number, leaving operands with no operator |
| Compiler.CompileDrainsOpen | express.c:462-512 | `1+(!` compiles, with the `(` drained into the output as an instruction |
| Compiler.StepEmits | express.c:465-501 | one loop pass keeps both buffers well formed |
| Compiler.ParseEmits | express.c:462-512 | every accepted output of express_parse consists of well-formed tokens |
| Compiler.CompileEmits | express.c:462-512 | a compiled expression is well formed and accepted by check_RPN |
| Compiler.ParseAccepts | express.c:462-512 | express_parse succeeds only with an RPN check_RPN accepts |
| Compiler.ExpressFinish | express.c:504-511 | the drain loop and check compute Finish |
| Compiler.ExpressOperand | express.c:472-483 | the operand cases compute OperandStep |
| Compiler.ExpressClose | express.c:484-491 | the `,` and `)` cases compute SymbolStep |
| Compiler.ExpressSymbol | express.c:484-499 | the switch on symbols computes SymbolStep |
| Compiler.ExpressOperator | express.c:497-499 | the default case computes SymbolStep |
| Compiler.ExpressParse | express.c:462-512 | the cursor loop computes Compile: accepted, rejected, or stalled forever |
| Literals.UnescapeShorter | express.c:546-553 | the de-escaped text is no longer than the literal body |
| Literals.UnescapeEscape | express.c:546-553 | de-escaping an escaped text gives it back, and its first unescaped quote is the closing one |
| Literals.EscapeQuote | express.c:546-553 | the escaped text holds a double quote exactly when the text does |
| Literals.ParseStrIntendedEscape | express.c:297-308 | the corrected scan of `"` + Escape(t) + `"` spans exactly that literal |
| Literals.ParseStrEscape | express.c:310-322 | parse_str spans exactly an escaped literal whose text is empty, holds a `"` or does not end in a backslash, and copystr's de-escaping gives the text back |
| Literals.ParseStrTrailingBackslash | express.c:312-314 | for a text with no `"` that ends in a backslash, parse_str fails or runs past the escaped literal |
| Literals.ParseStrBackslashExample | express.c:312-314 | `"a\\"`, the literal of `a\`, is rejected by parse_str though the corrected scan spans it |
| Literals.Copied | express.c:544-561 | copystr writes no more characters than the token spans |
| Literals.CopiedForms | express.c:544-561 | a name copies verbatim, a single-quoted literal without its quotes, and any literal in at most its length minus the two quotes |
| Literals.Used | express.c:544-561 | the size copystr returns never exceeds the len + 1 reserved for the token |
| Literals.OffsetWithin | express.c:580-598 | the text of the first i tokens takes no more than was reserved for them |
| Literals.MaterialisedAt | express.c:589-598 | instruction j is token j with its text placed at the offset the earlier tokens leave |
| Literals.MaterialiseKeepsShape | express.c:591-593 | placing the text changes no kind, count or function id |
| Literals.PlaceFits | express.c:595-596 | each token's text fits in the buffer, so express_create's assert off <= len holds |
| Literals.CopyEscaped | express.c:546-553 | the de-escaping loop writes exactly Unescape at dest+off and nothing else |
| Literals.CopyRun | express.c:557 | the memcpy writes exactly the source run and nothing else |
| Literals.CopyStr | express.c:544-561 | copystr writes the copied text plus a NUL and returns its size, touching nothing else |
| Builtins.CRemBounds | express.c:665 | C's `%` on long: a == b*q + r with the remainder's sign following the dividend and its magnitude below the divisor's |
| Builtins.BitNot | express.c:661 | `~` on a long complements all 64 bits |
| Builtins.BitwiseSelf | express.c:670-672 | bitwise and and or of a long with itself give it back, and xor gives 0 |
| Builtins.BitwiseCommutes | express.c:670-672 | bitwise and, xor and or on long do not depend on operand order |
| Builtins.ShiftLeftLong | express.c:668 | `<<` is defined exactly for a non-negative long and a count in [0, 64) whose result fits, and then multiplies by 2^count |
| Builtins.ShiftRightLong | express.c:669 | `>>` is defined exactly for a count in [0, 64) |
| Builtins.ShiftRoundTrip | express.c:668-669 | shifting left then right by the same count gives the long back |
| Builtins.Find | express.c:157 | strstr finds the first occurrence, or reports that there is none |
| Builtins.StrstrFindsFirst | express.c:154-158 | fn_strstr yields a pointer into the first string at the first match, with the rest of that string, or NULL exactly when there is no match |
| Builtins.Fetch | express.c:630-642 | FETCH_OPT yields the host's value when the host gives one, and the name's own text when there is no fetcher or it answers TV_NONE; never TV_NONE |
| Builtins.CallAbortsIffOutOfRange | express.c:127-229 | each fn_* asserts exactly its registry entry's [min, max] argument count |
| Builtins.SubstrSuffix | express.c:161-184 | substr(s, off) is the suffix from off, a negative off counting from the end |
| Builtins.SubstrSplits | express.c:161-184 | substr(s, 0, k) followed by substr(s, k) gives back s |
| Builtins.SubstrWindow | express.c:161-184 | a copied substring is a window of the string |
| Builtins.SubstrOutOfRange | express.c:167-173 | a NULL string, or an offset at or past the end, gives "" |
| Builtins.SubstrBelowStart | express.c:170-173 | an offset still negative after the length is added gives "" |
| Builtins.SubstrThreeArgs | express.c:175-183 | substr(s, off, n) copies the n characters from off (counted from the end when negative), cut at the end of s; a negative n is undefined |
| Builtins.InNumbers | express.c:141-151 | on numbers, in is true exactly when some later argument equals the first |
| Builtins.CaseEmptyIsTrue | express.c:194-198 | case takes an empty string as true and NULL or 0 as false |
| Builtins.NotNot | express.c:644-647 | `!!v` is 1 exactly for the values case takes as true |
| Builtins.ApplyNeverUnset | express.c:660-687 | no instruction yields TV_NONE from operands that are not TV_NONE |
| Evaluator.SurvivorsAtMostOne | express.c:514-530 | bufflist_clean keeps at most one block, the one whose buffer is the excepted pointer, and none exactly when no block is |
| Evaluator.SurvivorsNeedBufferStart | express.c:520 | a pointer into the middle of a block keeps nothing |
| Evaluator.Store | express.c:659-688 | the result goes to arg[0] and the slots below it are unchanged; a substr result is a pointer to the start of a new scratch block, put at the head of the list and holding the text and its NUL |
| Evaluator.MaterialisedExecutable | express.c:589-598 | every copied instruction is one the switch can run |
| Evaluator.CountStep | express.c:656-689 | on an accepted RPN the evaluator's depth equals check_RPN's count, covers each instruction's operands and stays within the stack |
| Evaluator.RunStep | express.c:658-688 | one instruction aborts, is undefined, or stores its result and goes on |
| Evaluator.Express.Create | express.c:563-608 | express_create returns NULL exactly when compilation fails; otherwise the copied instructions, a buffer of the reserved size, and a valid object |
| Evaluator.Express.StringSpace | express.c:580-584 | the sizing loop reserves len + 1 for every name and literal |
| Evaluator.Express.CopyTokens | express.c:589-598 | the copy loop stores Materialise, every text readable in the buffer with its NUL |
| Evaluator.Express.CopyNext | express.c:589-598 | one pass extends the copied prefix and keeps it readable |
| Evaluator.Express.PlaceOne | express.c:590-597 | one token is copied with its text at off, keeping earlier texts readable |
| Evaluator.Express.Alloc | express.c:117-124 | express_alloc pushes a zeroed block at the head of the list and returns its buffer |
| Evaluator.Express.FillHead | express.c:180-181 | substr's memcpy and NUL fill the block just allocated |
| Evaluator.Express.BufflistClean | express.c:514-530 | the list ends as the blocks Survivors keeps |
| Evaluator.Express.Put | express.c:659-688 | storing into arg[0] gives the state Store describes |
| Evaluator.Express.Execute | express.c:657-689 | one loop pass follows RunFrom by one instruction |
| Evaluator.Express.Calculate | express.c:651-697 | express_calculate computes Run; on a result, stack[0] holds it and the list is what Run leaves |
| Evaluator.ApplyNoAbort | express.c:656-687 | every instruction but `(` runs without an assert failing once check_RPN has passed it |
| Evaluator.InstructionsOnlyOpenAborts | express.c:660-687 | the library's instructions abort only at `(` |
| Evaluator.RunAbortsOnlyWithOpen | express.c:651-697 | a compiled expression with no `(` in its RPN never aborts |
| Evaluator.RunAbortsOnlyAtOpen | express.c:656-692 | from any point with check_RPN's count and no `(` left, the run does not abort |
| Evaluator.AbortFreeStep | express.c:658-688 | one non-`(` instruction has its operands, does not abort, and leaves check_RPN's count |
| Evaluator.RunAbortsAtDrainedOpen | express.c:651-697 | the RPN of `1+(!` passes check_RPN, every instruction of it is stored, and its run aborts |
| Evaluator.RunNeverUnset | express.c:651-697 | express_calculate never returns TV_NONE |
| Evaluator.StoreKeepsScratch | express.c:117-124 | storing keeps block addresses distinct and below the next one |
| Evaluator.RunKeepsOnlyResultBlock | express.c:688-694 | after a run at most one scratch block remains, and only the one whose buffer is the result string |

## Left out

- `main.c`: command-line handling and printing only.
- `token_pushback`'s growth by reallocation: the output and working stack are sequences, and
  the copy `express_create` makes is a sequence field.
- The allocation failure asserts (`calloc`, `realloc`) and `express_destroy`: memory is not
  modelled beyond the scratch list's blocks and their addresses.
- `REGEX_OPT`'s matching: `regcomp`/`regexec` is the `regexMatches` field of `Libc`, and `regfree`
  is not modelled. Only the guard is kept: it tests the left operand's type twice, so a
  non-string right operand is read as "".
- Floating point: numbers are exact reals. `strtod`/`atof`/`atol`, the double `+ - * /` and
  `pow` are fields of `Libc`.
- `fn_time`: the clock is the `now` field of `Libc`.
- The host fetcher: a function from names to values. Its `ctx` argument and the assert on the
  value's type are not modelled.
- Values.StrCmp: only the sign of `strcmp` is kept, not its magnitude.
- `uint32` token positions and lengths: unbounded in the model.
- Tokens.IsLowByAssociativity: `level` is declared plain `char` (express.c:54), and the model
  reads it as signed, so `(` has level -1 and no operator gives way to it. Where plain `char`
  is unsigned, `(` reads as 255, ISLOW holds against it, and `opera_push` pops it to the output.
- Builtins.ShiftRightLong: `>>` on a negative long is taken as arithmetic (floor division). C
  leaves the choice to the implementation.
- Evaluator.Express.Create: when the parse stalls it returns NULL. The C function never returns
  in that case, and the model states that as the `Stalls` outcome of `Compile`.
- Undefined behaviour ends the run as `Undefined` instead of being excluded by a precondition.
  The cases are `%` by 0 or LONG_MIN % -1, shifts out of range, an out-of-range `(long)`
  cast, `strcmp`/`strlen`/`strstr` on NULL, a negative `substr` length, and a write past the
  value stack.
- The expression text must be a C string (no NUL inside): `Compile`, `ExpressParse` and
  `Express.Create` require it. Strings the host fetcher returns are taken to hold no NUL, and
  the model does not enforce that.
- Compiler.ParenthEndCloses: a function's argument count is proved step by step, one count per
  comma and one per closing `)` of a non-empty call. The end-to-end statement "commas at the
  function's level plus one" is not proved as a single lemma.

## Findings

| source | as written | input that shows it | evidently intended | confidence | as-written member | corrected member |
|---|---|---|---|---|---|---|
| express.c:312-314 | parse_str takes a backslash just before the first `"` after the opening quote as escaping it, even when that backslash is itself escaped, and restarts find_quot after that quote | `"a\\"`, the escaped literal of the text `a\`: the closing quote is skipped and the literal is rejected, and the expression does not compile (Compiler.CompileBackslashLiteralRejected) | the literal ends at the first quote no backslash escapes, i.e. find_quot searched from just after the opening quote, the boundary copystr's de-escaping assumes | not executed | Literals.ParseStrBackslashExample | Scanner.ParseStrIntended |
