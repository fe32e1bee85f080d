# A model of an `ed`-style line editor's command front end

The editor loads a file into a list of lines, puts its cursor (the *current
address*) on the last line, and then interprets one command line at a time.
A command line is an optional address followed by an optional verb:

    [token[,token]][p]        token := '$' | digit+

`$` names the last line and a digit run names a line by number. With `p` the
addressed lines are printed; with no verb at all (the *bare line*) they are
printed too, and without an address the bare line targets the line after the
cursor while `p` targets the cursor line. After a successful command the
cursor moves to the end of the addressed range.

The model has one module per component:

- `Syntax` (syntax.dfy): the parsed values (`AddressToken`, `Address`,
  `CommandToken`, `Command`), the editor's error messages as an `Error`
  datatype, `Result`/`Option`, and `USIZE_MAX` (a 64-bit usize).
- `Digits` (digits.dfy): the value of a decimal digit run, as the standard
  library's integer parser reads it, and the canonical rendering `Decimal(n)`.
- `Grammar` (grammar.dfy): the parsers as pure functions over the input and a
  forward-only position (`TokenAt`, `AddressAt`, `CommandTokenAt`,
  `ParseCommand`), a printer `Render`, and the lemmas about them: round trips,
  leading zeros, overflow, and the error cases.
- `Parser` (parser.dfy): the parsers as the editor runs them, consuming a
  shared character stream (the position is threaded through each call), with
  the digit loop that tracks the offset of the last digit; each method is
  proved equal to its grammar function.
- `Resolve` (resolve.dfy): address resolution and bounds validation.
- `Editing` (editing.dfy): the `Editor` class (fields `currentAddress` and
  `lines`), its construction from a loaded line list, `Execute` and
  `Interpret`, the specification `Transition` of one command, and lemmas
  about what commands select and where the cursor goes.
- `Arguments` (args.dfy): the command-line argument scan.

### Behaviour worth knowing

- Only two commands exist: `p` and the bare line.
- The selected lines are taken from the 0-based line vector using the validated
  1-based range as it is (src/main.rs:110). So `np` prints line n + 1, and `1p`
  prints the second line.
- Addressing the last line panics. This covers `$`, `1,$`, and the number of
  lines written out. The model reports each panic as a `Panicked` outcome, and
  a panic ends the program.
- Validation checks each endpoint against `1..=len` separately, so reversed
  ranges are accepted. A range reversed by exactly one (`3,2`) selects nothing
  and prints an empty line. A range reversed by more (`3,1`) panics.
- After loading, the cursor is the number of lines. So a bare line right after
  loading is always out of bounds.
- After a print, the cursor is the end of the range. So `p` without an address
  prints the line after the cursor again and again, and each bare line moves
  one line further on.

## Model

| member | source | states |
|---|---|---|
| `Digits.Decimal` | src/main.rs:229 | the canonical rendering of a number is a non-empty digit run with no leading zero |
| `Digits.Value` | src/main.rs:229 | the value of a digit run as a usize parse reads it: below 10 to the power of its length, and zero exactly when every digit is `0` |
| `Digits.ValueOfDecimal` | src/main.rs:229 | reading a rendered number back as a usize gives the number |
| `Digits.LeadingZeros` | src/main.rs:229 | any number of leading zeros leaves a digit run's value unchanged |
| `Digits.DecimalOfValue` | src/main.rs:229 | a digit run without a leading zero is the rendering of its own value |
| `Grammar.DigitRunEnd` | src/main.rs:222-227 | the digit run starting at a position is maximal: all digits, followed by a non-digit or the end |
| `Grammar.TokenAt` | src/main.rs:218-237 | an address token consumes input only when it yields a token or an error, and never moves backwards |
| `Grammar.AddressAt` | src/main.rs:194-208 | an address consumes input exactly when the result is not "no address" (an overflowing token consumes input and yields an error), and never moves backwards |
| `Grammar.ParseCommand` | src/main.rs:171-181 | every parsed number fits a usize; the command is `Print` exactly when the line ends in `p` |
| `Grammar.DigitRunToken` | src/main.rs:222-233 | a digit run followed by a non-digit is consumed whole and read as its value, or rejected as "Failed to parse numeric address" when it exceeds a usize |
| `Grammar.RenderedToken` | src/main.rs:218-237 | a rendered token is read back as itself and consumed exactly; for a number, a non-digit or the end must follow |
| `Grammar.DollarToken` | src/main.rs:219-221 | `$` is a token that consumes exactly one character, whatever follows it |
| `Grammar.ZeroPaddedToken` | src/main.rs:222-233 | `007` reads as 7 and `0` as 0: zero padding is accepted and ignored |
| `Grammar.NoToken` | src/main.rs:194-197 | any character other than `$` or a digit yields no token and no address, and consumes nothing |
| `Grammar.AddressShapes` | src/main.rs:199-205 | without a comma the address is `Single`; a comma and a token make a `Range`; a comma alone is consumed and degrades to `Single`; an error in the second token propagates |
| `Grammar.TrailingComma` | src/main.rs:201-202 | a trailing comma is consumed and the address is the first token alone |
| `Grammar.BareLineParses` | src/main.rs:171-181 | a line that is all address (or empty) is a bare-line command over that address |
| `Grammar.PrintParses` | src/main.rs:171-181 | a line that is an address (or nothing) followed by a single `p` is a print of that address |
| `Grammar.RenderRoundTrip` | src/main.rs:171-237 | parsing the rendering of any command whose numbers fit a usize gives that command back |
| `Grammar.ParseThenRender` | src/main.rs:171-181 | every parse result is stable under rendering and parsing again |
| `Grammar.PrintNumberRoundTrip` | src/main.rs:171-181 | `<n>p` parses to a print of `Single(Number(n))` for every n a usize holds |
| `Grammar.RangeRoundTrip` | src/main.rs:199-204 | `<a>,<b>` parses to a bare-line command over `Range(a, b)` |
| `Grammar.OverflowRejected` | src/main.rs:229-231 | a number beyond a usize makes the whole line fail to parse |
| `Grammar.ZeroPaddedCommand` | src/main.rs:229 | `00…0<n>p` parses to the same command as `<n>p` |
| `Grammar.UnknownVerb` | src/main.rs:248-251 | any character after the address other than `p` is "Unknown command" |
| `Grammar.TrailingAfterPrint` | src/main.rs:177-179 | any character after the `p` is "Extra characters in stream" |
| `Grammar.DollarThenDigit` | src/main.rs:219-221 | `$5` is "Unknown command": `$` is consumed alone, and the `5` is then read as the verb (lines 248-251) |
| `Grammar.LeadingComma` | src/main.rs:195-196 | `,p` is "Unknown command": a comma cannot start an address |
| `Grammar.DoublePrint` | src/main.rs:177-179 | `1pp` is "Extra characters in stream" |
| `Grammar.TrailingCommaLine` | src/main.rs:199-202 | `5,` is a bare line addressing line 5 alone |
| `Parser.ParseAddressToken` | src/main.rs:218-237 | the stream-consuming token parser, with its digit loop, yields exactly the grammar's token and position |
| `Parser.ParseAddress` | src/main.rs:194-208 | the stream-consuming address parser agrees with the grammar |
| `Parser.ParseCommandToken` | src/main.rs:247-253 | the verb parser agrees with the grammar |
| `Parser.ParseCommandLine` | src/main.rs:171-181 | parsing a whole line agrees with the grammar, including the leftover-input check |
| `Resolve.ResolveAddress` | src/main.rs:126-152 | an accepted range only names lines that exist: both endpoints lie in `1..=len` |
| `Resolve.ResolveUnaddressed` | src/main.rs:127-151 | without an address, `p` resolves to `(cur, cur)`, accepted exactly when `1 <= cur <= len`; the bare line resolves to `(cur+1, cur+1)`, accepted exactly when `cur < len`; otherwise "Out of bounds" |
| `Resolve.ResolveSingle` | src/main.rs:132-159 | whatever the verb and cursor, `$` resolves to `(len, len)`, accepted exactly when the buffer is not empty, and `n` to `(n, n)`, accepted exactly when `1 <= n <= len` |
| `Resolve.ResolveRange` | src/main.rs:137-159 | a range resolves `$` to `len` and `n` to n for each endpoint on its own, whatever the verb and cursor, and is accepted in either order exactly when both lines exist |
| `Resolve.EmptyBufferRejects` | src/main.rs:145-151 | on an empty buffer every command is out of bounds |
| `Resolve.BareLineAfterLoadRejected` | src/main.rs:130 | with the cursor on the last line, a bare line is out of bounds |
| `Resolve.ReversedRangeAccepted` | src/main.rs:137-148 | a reversed range with both endpoints in bounds passes validation |
| `Editing.Editor.FromFile` | src/main.rs:90-100 | a loaded editor holds the lines and its cursor is the number of lines |
| `Editing.Editor.Execute` | src/main.rs:107-124 | executing never changes the lines; the outcome and new cursor are those of `Transition`; an error or panic leaves the cursor unchanged |
| `Editing.Editor.Interpret` | src/main.rs:102-105 | the outcome and new cursor are those of `InterpretStep`, and the lines never change |
| `Editing.SliceInclusive` | src/main.rs:110 | indexing the 0-based vector with `start..=end` succeeds exactly when `start <= end + 1` and `end` is below the line count, and then selects 0-based lines `start..end` in order |
| `Editing.Transition` | src/main.rs:107-121 | only a print moves the cursor, and then to an existing line other than the last; the only error is "Out of bounds" |
| `Editing.InterpretStep` | src/main.rs:102-105 | a parse error is reported and keeps the cursor; a print leaves the cursor on an existing line other than the last |
| `Editing.TransitionCases` | src/main.rs:107-124 | a command fails out of bounds, panics at the slice, or prints 0-based lines `start..end` and moves the cursor to `end`, each exactly when its condition on the endpoints holds |
| `Editing.NumberPrintsNextLine` | src/main.rs:110 | `np` with n below the line count prints line n + 1 and sets the cursor to n |
| `Editing.OnePrintsSecondLine` | src/main.rs:110 | `1p` prints the second line |
| `Editing.LastLinePanics` | src/main.rs:110 | addressing the last line, as `$` or by number, panics and leaves the cursor |
| `Editing.WholeBufferPrint` | src/main.rs:107-151 | `1,$p` panics on a non-empty buffer and is out of bounds on an empty one |
| `Editing.ReversedByOneSelectsNothing` | src/main.rs:110 | a range reversed by one prints an empty line and moves the cursor to its end |
| `Editing.ReversedFurtherPanics` | src/main.rs:110 | a range reversed by more than one panics |
| `Editing.EmptyBufferFails` | src/main.rs:145-151 | every command on an empty buffer is out of bounds and keeps the cursor |
| `Editing.RepeatIsStable` | src/main.rs:107-124 | an addressed command, or an unaddressed `p`, that printed once does the same again from the cursor it left |
| `Editing.BareLinesWalkForward` | src/main.rs:126-130 | k consecutive empty input lines from cursor c print 0-based lines c+1..c+k one by one and leave the cursor at c+k |
| `Editing.InterpretAll` | src/main.rs:54-78 | the outcomes of successive input lines stop early only at a panic, which is then the last outcome, and no earlier outcome is a panic |
| `Editing.InterpretAllAppend` | src/main.rs:54-78 | once a prefix of the input has run without panicking, the rest runs from the cursor the prefix left, and its outcomes follow the prefix's |
| `Editing.PanicEndsSession` | src/main.rs:110 | after `$p` panics on a non-empty buffer, no later input line runs |
| `Arguments.Parse` | src/main.rs:18-34 | the program name is skipped; `-d`/`--debug` anywhere sets debug; a second non-flag argument is "Multiple file paths provided"; otherwise the first non-flag argument is the file path |

## Left out

- The I/O of the standard-input read loop (src/main.rs:54-78): reading, end of input, read errors, and newline stripping. Line 70 drops the last byte of every line unconditionally. `InterpretAll` starts from command lines that have already been read and stripped.
- The check that a file path was given (src/main.rs:40-42), file opening, the printed file size, and line loading (src/main.rs:44-50, 91-94): these are file I/O. `Editor.FromFile` takes the loaded lines as a sequence.
- Output: `println!` appends a newline to the joined text. `Printed` carries the joined text without it. The `?` line and the debug diagnostics on errors are not modelled.
- A panic aborts the process. The model reports it as the `Panicked` outcome and keeps the cursor, since the assignment after the slice is never reached.
- usize overflow of `current_address + 1` (src/main.rs:130). The cursor is a `nat`. The only usize bound modelled is the one the number parser enforces (src/main.rs:229).
- The integer parser is the standard library's. It is modelled by its result: the decimal value, or a failure when the value exceeds a 64-bit usize. Its internal steps are not modelled.
