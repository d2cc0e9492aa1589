# cat in Dafny

A model of `cat.c`, a small re-implementation of `cat(1)`, and proofs
about it. The model covers three parts of the program:

- the command-line parser `parseOption`, with its six display flags and its fixed list of at most 100 source names;
- the byte renderer `printChar` and the line printer `printFile`;
- `main`, which reads standard input when no source is named and then prints each source in turn.

Modules:

- `Bytes` (bytes.dfy): bytes, ASCII constants, and the C-locale `isspace`.
- `CatOptions` (options.dfy): the `Options` struct as a datatype.
  - The parser as a reference function, `ParseTokens`.
  - The parser as the imperative method `ParseOption`, with its fixed-size `file` array, proved equal to the reference.
- `ParseProperties` (parse_properties.dfy): what the parser promises.
  - Left-to-right composition, help and errors first-come, and the file limit.
  - The equivalences `-A`=`-vET`, `-e`=`-vE`, `-t`=`-vT`, and `-u` ignored.
- `CharRender` (printchar.dfy): `printChar` as a function, with a decoder that reads every byte back from its rendering.
- `Decimal` (decimal.dfy): the `%6d  ` line-number prefix, and the digits read back.
- `LineBuffers` (linebuffer.dfy): the growable `line` buffer of `printFile` as a class over an array.
  - Its capacity doubles when it is full, as `line_alloc` does with `realloc`.
- `Scanner` (scanner.dfy): `printFile`, modelled twice.
  - A line-by-line reference, `Render`: the complete lines become rows, and the rows become bytes.
  - The byte-at-a-time loop of the source: the class `FileScanner` holds the loop's variables, and the method `PrintFile` is proved to write exactly `Render`.
- `ScannerProperties` (properties.dfy) and `Scenarios` (scenarios.dfy): what `printFile` promises.
  - Squeezing, numbering, the shape of each written line, and the output with no flags.
  - Concrete inputs.
- `CatMain` (main.dfy): `main` as a function `Main` and as a method `RunMain`.
  - Exit statuses 0, 1 and 2.
  - Standard input used by default.
  - Each source printed independently of the others.

Where the code and its documentation disagree, the model follows the code:

- DEL (0x7F) is not escaped by `printChar` (cat.c:120-123).
  - 0xFF is written as "M-" followed by a raw DEL, not as `M-^?`.
- With no flags the output is not the input:
  - a line of white space only is written as an empty line, because `blank_end` suppresses its text (cat.c:164-168);
  - bytes after the last newline are never written.
- `--help` and `-h` are first-come: an unknown option before them gives status 1, and help before an unknown option gives status 0 with the usage text.
- A lone `-` on the command line is a short-option cluster with no letters (cat.c:53).
  - It is neither stored nor an option, so standard input is read only when no source is named at all.
- Under `-s` a squeezed line is not removed from the buffer (cat.c:150-152 skip `line_len = 0`).
  - Its white space is written at the start of the next row.
- "Blank" means white space only (`isspace`), not empty.
  - This applies to squeezing, to `-b`, and to the emptied lines above.

## Model

| member | source | states |
|---|---|---|
| CatOptions.Merge | cat.c:29-93 | Setting a mask of flags only ever sets flags, and gives the least options that have both the old flags and the mask. |
| CatOptions.ApplyCluster | cat.c:53-94 | A short cluster never clears a flag; it stops only with code 1 (unknown letter) or -1 ('h'). |
| CatOptions.ParseTokens | cat.c:24-105 | The result code is 0, 1 or -1; flags are only set; the file list only grows, from its front; and it never exceeds 100 entries. |
| CatOptions.LongOptionStep | cat.c:27-50 | The long-option branch returns the code of the table entry that matches the whole token (help -1, unknown 1, else 0), and sets exactly that entry's flags. |
| CatOptions.ClusterStep | cat.c:51-95 | The letter loop over one cluster returns the code and the flags of the cluster reference: it stops at the first 'h' or unknown letter, with the flags of the letters before it. |
| CatOptions.ParseOption | cat.c:24-105 | The imperative parser, with its array of 100 names, returns the same code, flags and file list as the reference parser on argv without the program name. |
| CatOptions.DefaultSources | cat.c:219-221 | main always has at least one source, and keeps the parsed names when there are any. |
| ParseProperties.ClusterMerge | cat.c:53-94 | Where a cluster stops, and with which code, does not depend on the flags already set; its flags are added to them. |
| ParseProperties.ClusterCompose | cat.c:53-94 | The letters of a cluster act left to right: two runs of letters act as the first, then, only if it did not stop, the second from the flags the first left; no letter after 'h' or an unknown letter is applied. |
| ParseProperties.ParseCompose | cat.c:25-104 | Parsing two runs of tokens is parsing the first, then the second from where the first left off, and only if the first ended with 0: no token after help or an error is looked at. |
| ParseProperties.ParseSucceeds | cat.c:24-105 | Parsing returns 0 exactly when no token stops it and the names fit in the array; then every flag the tokens name is set and every name is stored, in order. |
| ParseProperties.SucceedsAfterFile | cat.c:96-102 | ParseSucceeds for a token list that starts with a source name. |
| ParseProperties.SucceedsAfterOption | cat.c:26-95 | ParseSucceeds for a token list that starts with an option that does not stop. |
| ParseProperties.ContinueStep | cat.c:26-95 | An option that does not stop adds its flags, and parsing goes on with the next token. |
| ParseProperties.StopStep | cat.c:45-50 | An option that stops (help or unknown, long or short) ends parsing with a code other than 0. |
| ParseProperties.FileLimit | cat.c:96-102 | Names alone are stored in order while fewer than 100 are stored; the 101st makes parsing return 1 and is not stored; the flags are untouched. |
| ParseProperties.LoneDash | cat.c:53 | A lone "-" changes nothing: it is neither an option nor a stored name. |
| ParseProperties.ShowAllIsVET | cat.c:77-81 | -A sets the same flags as -vET. |
| ParseProperties.ShortCombinations | cat.c:58-71 | -e sets the same flags as -vE, and -t the same as -vT. |
| ParseProperties.UnbufferedIgnored | cat.c:72-73 | -u is accepted and sets nothing. |
| ParseProperties.LongMatchesShort | cat.c:29-50 | Each long option does what its short letter does; a long option must match the whole token, so the prefix "--num" is unknown. |
| ParseProperties.FirstStopWins | cat.c:45-49 | `-h -z` asks for help, `-z -h` is an error, and in `-nhs` the 'n' is applied but not the 's'. |
| ParseProperties.StdinByDefault | cat.c:219-221 | After a successful parse, main reads the source names in command-line order, or "-" alone when there are none. |
| CharRender.PrintChar | cat.c:110-128 | A byte renders as 1 or 2 bytes, or up to 4 with "M-"; a newline is written only for a newline without show_nonprinting; a 2-byte rendering below 0x80 starts with '^'. |
| CharRender.PrintChars | cat.c:165-167 | A rendered line is at least as long as the line and at most four times as long. |
| CharRender.PrintCharRoundTrip | cat.c:110-128 | Every byte is read back from its rendering, whatever the flags. |
| CharRender.PrintCharInjective | cat.c:110-128 | Two different bytes never render alike. |
| CharRender.PlainPassThrough | cat.c:110-128 | Without show_nonprinting a byte is written unchanged, and show_tabs has no effect. |
| CharRender.EscapeCases | cat.c:111-124 | With show_nonprinting: TAB is "^I" only under show_tabs; a high byte is "M-" then the rendering of its low 7 bits; a control byte is '^' then byte+'@'; any other byte is itself. |
| CharRender.AtMostOneMeta | cat.c:118-119 | "M-" is written at most once per byte. |
| CharRender.Examples | cat.c:112-124 | 0xC1 is "M-A", 0x01 is "^A", 0x89 is "M-^I" or "M-" then TAB, DEL is itself, and 0xFF is "M-" then DEL. |
| Decimal.Digits | cat.c:161 | The decimal digits of a number: at least one digit, all digits, and no leading zero. |
| Decimal.DigitsValue | cat.c:161 | The digits read back to the number. |
| Decimal.DigitsLength | cat.c:161 | A number has at most k digits exactly when it is below 10^k. |
| Decimal.NumberPrefix | cat.c:161 | `%6d  ` is a field of at least six characters, then two spaces, and holds no newline. |
| Decimal.PrefixReadsBack | cat.c:161 | The prefix is spaces, then exactly the digits of the counter, right-justified; it is eight bytes below 1000000. |
| Decimal.PrefixPadded | cat.c:161 | The counter 1 is written as five spaces, "1", and two spaces. |
| Decimal.PrefixFull | cat.c:161 | The counter 123456 fills the field exactly. |
| Decimal.PrefixWidens | cat.c:161 | The counter 1234567 widens the field. |
| LineBuffers.LineBuffer.constructor | cat.c:141-146 | A new buffer is empty, with the requested capacity (80 in printFile). |
| LineBuffers.LineBuffer.Push | cat.c:182-186 | Appends one byte; the capacity doubles exactly when the buffer was full, and the old contents are kept. |
| LineBuffers.LineBuffer.Clear | cat.c:169 | `line_len = 0`: the buffer is empty again and keeps its storage. |
| Scanner.Rest | cat.c:148-188 | The bytes after the last newline hold no newline. |
| Scanner.Lines | cat.c:148-188 | No complete line holds a newline. |
| Scanner.SplitJoin | cat.c:148-188 | The complete lines, each with its newline, then the rest, give back the input. |
| Scanner.ScanOther | cat.c:176-187 | A byte other than newline extends the unfinished line and keeps the scanner in step with the reference. |
| Scanner.ScanSqueezed | cat.c:150-152 | A blank line after a blank line under squeeze_blank changes nothing: no output, same counter, same buffer. |
| Scanner.ScanWritten | cat.c:153-175 | Any other newline writes the row the reference appends and empties the buffer. |
| Scanner.ScanAgrees | cat.c:139-189 | After every prefix of the input, the loop's output, counter, buffer and both blank flags are what the line-by-line reference says. |
| Scanner.ScanRender | cat.c:139-189 | The loop's output after the whole input is the reference rendering. |
| Scanner.PrintBuffered | cat.c:165-167 | The loop over the buffer writes printChar of every buffered byte, in order. |
| Scanner.WriteLine | cat.c:160-175 | One written line: the prefix exactly when numbered (and then the counter moves on by one), the text unless blank, "$" under show_ends, and a newline. |
| Scanner.FileScanner.constructor | cat.c:140-146 | The loop starts with counter 1, blank_flag set, blank_end clear, an empty buffer of capacity 80, and nothing written. |
| Scanner.FileScanner.Read | cat.c:148-188 | One turn of the loop moves the loop's variables as the byte-level step function says. |
| Scanner.FileScanner.EndOfLine | cat.c:149-175 | A newline moves the loop's variables as the step function says for a newline. |
| Scanner.PrintFile | cat.c:139-189 | printFile writes exactly the line-by-line reference rendering of its input. |
| ScannerProperties.EndLineConsistent | cat.c:149-175 | Each newline keeps the invariant: only squeezed white space is carried; blank_end is "the last row was blank"; numbers are 1..n without gaps; a row is numbered exactly by the flags; no two blank rows are adjacent under squeeze_blank. |
| ScannerProperties.RenderConsistent | cat.c:139-189 | The invariant holds after any sequence of lines. |
| ScannerProperties.BlankEndIsLastLineBlank | cat.c:153-157 | At a newline, blank_end says exactly whether the previous line was blank. |
| ScannerProperties.SqueezeRule | cat.c:150-175 | Rows already written never change; under squeeze_blank a blank line after a blank line writes nothing; every other line writes exactly one row. |
| ScannerProperties.NoSqueezeAllWritten | cat.c:149-175 | Without squeeze_blank every line writes one row: its bytes, or nothing when it is blank. |
| ScannerProperties.BlankRunWrittenOnce | cat.c:150-152 | Under squeeze_blank, a run of blank lines after a line that is not blank (or at the start) is written as one blank row. |
| ScannerProperties.CarryAfterRun | cat.c:150-169 | Under squeeze_blank, after a run of blank lines that follows a line that is not blank (or starts the file), blank_end is set and the buffer holds every line of the run after the first, one after the other: the squeezed lines are skipped without `line_len = 0`. |
| ScannerProperties.SqueezedRunLeads | cat.c:150-169 | The next line that is not blank is then written as one row whose text is the squeezed lines' white space followed by that line, numbered when the flags number a line that is not blank. |
| ScannerProperties.PrintCharsPlain | cat.c:125-127 | Without show_nonprinting a line is rendered as itself. |
| ScannerProperties.PrintCharsNoNewline | cat.c:165-167 | The rendering of a line holds no newline. |
| ScannerProperties.AppendNoNewline | cat.c:176-187 | Bytes without a newline complete no line; they only extend the unfinished one. |
| ScannerProperties.AppendLine | cat.c:149 | A line then a newline completes exactly one line. |
| ScannerProperties.TailNeverWritten | cat.c:176-188 | Bytes after the last newline never change the output. |
| ScannerProperties.OutputLines | cat.c:160-175 | The output splits back into the rows, one line per row, and ends with a newline (or is empty). |
| ScannerProperties.RenderShape | cat.c:160-175 | printFile's output splits into exactly one line per reference row (the prefix when numbered, the rendered text, "$" under show_ends), and nothing follows the last newline. |
| ScannerProperties.ShowEndsMarksLines | cat.c:171-175 | Under show_ends every written line ends with '$'. |
| ScannerProperties.PlainRender | cat.c:139-189 | With no flag set, the output is each complete line, emptied if it is white space only, each with its newline. |
| ScannerProperties.PlainIdentity | cat.c:139-189 | With no flags, an input that ends with a newline and has no non-empty white-space-only line comes out unchanged. |
| ScannerProperties.EmptiedUnchanged | cat.c:164-168 | Lines with no non-empty white-space-only line are not changed by the emptying. |
| ScannerProperties.LineFlagsOnly | cat.c:149-175 | Which rows are written, and their numbers, depend only on -n, -b and -s. |
| ScannerProperties.SerializeWithoutEscapes | cat.c:110-128 | Without show_nonprinting the bytes of the rows depend only on show_ends. |
| ScannerProperties.ShowTabsAloneInvisible | cat.c:111-117 | show_tabs without show_nonprinting does not change printFile's output. |
| ScannerProperties.Numbering | cat.c:160-161 | Numbers start at 1 with no gaps; a row is numbered exactly when (-n and not -b) or (-b and the row is not blank); under -n alone the last number is the number of rows. |
| ScannerProperties.LinesOfJoin | cat.c:148-188 | Lines joined with newlines split back into the same lines with nothing left over. |
| Scenarios.RenderJoined | cat.c:139-189 | The output for an input given as its complete lines is the rows of those lines. |
| Scenarios.SerializeUnnumbered | cat.c:160-175 | Unnumbered rows, with no escapes and no "$", are written as their texts, one per line. |
| Scenarios.OpeningRows | cat.c:149-175 | A line that is not blank, then an empty line: two rows, the second empty, and blank_end is set. |
| Scenarios.RenderViaRows | cat.c:139-189 | Lines whose rows are unnumbered texts are written as those texts. |
| Scenarios.SqueezeBetweenRows | cat.c:150-152 | Two empty lines between lines that are not blank leave one empty row under squeeze_blank. |
| Scenarios.SqueezeBetween | cat.c:150-152 | Under -s, "a\n\n\nb\n" is written "a\n\nb\n" for any lines a and b that are not blank. |
| Scenarios.SqueezedSpaceRows | cat.c:150-169 | A squeezed " " line is carried into the next row. |
| Scenarios.SqueezedSpaceCarried | cat.c:150-169 | Under -s, "a\n\n \nb\n" is written "a\n\n b\n": the squeezed white space reaches the next line. |
| Scenarios.SqueezeFooBar | cat.c:150-152 | `cat -s` on "foo\n\n\nbar\n" writes "foo\n\nbar\n". |
| Scenarios.TabLineEscaped | cat.c:112-114 | Under -vT, "a\tb" renders as "a^Ib". |
| Scenarios.TabLineRow | cat.c:149-175 | "a\tb\n" without numbering is one unnumbered row. |
| Scenarios.TabLineBytes | cat.c:160-175 | That row is written "a^Ib", then "$" under -E, then a newline. |
| Scenarios.TabLineRendered | cat.c:139-189 | printFile with -vT on "a\tb\n" writes "a^Ib" and "$" under -E, then a newline. |
| Scenarios.TabsAndEnds | cat.c:139-189 | `cat -vTE` on "a\tb\n" writes "a^Ib$\n"; without -E it writes "a^Ib\n". |
| Scenarios.NumberedRows | cat.c:160-161 | For a line, an empty line and a line: under -n the rows are numbered 1, 2, 3; under -b they are 1, none, 2. |
| Scenarios.NumberingExample | cat.c:160-175 | `cat -n` on "a\n\nb\n" writes three prefixed lines; `cat -b` prefixes only the two lines that are not blank. |
| CatMain.Opened | cat.c:223-232 | No more sources are read than are named. |
| CatMain.CatOutputAppend | cat.c:223-235 | Nothing of one printFile call (counter, squeeze state, unfinished line) reaches the next: the output of two runs of sources is the two outputs, one after the other. |
| CatMain.RunSourcesOutput | cat.c:223-237 | The loop writes the outputs of the sources that open, up to the first that does not; the status is 0 exactly when all open, else 2; no usage text. |
| CatMain.MainStatus | cat.c:212-238 | The status is 0, 1 or 2; 1 exactly on a parse error; the usage text exactly on help, with status 0 and no other output; 2 only when a named source cannot be opened. |
| CatMain.FirstUnopened | cat.c:228-231 | When not every source opens, the first one that was not read is a name that cannot be opened. |
| CatMain.StoredAreNames | cat.c:96-102 | Every name parseOption stores is a non-option token, so never "-". |
| CatMain.NamedSourcesIgnoreStdin | cat.c:225-227 | Sources other than "-" never read standard input. |
| CatMain.StdinAtMostOnce | cat.c:219-227 | main's sources are either "-" alone (no name given) or hold no "-": standard input is named at most once. |
| CatMain.StdinOnlyByDefault | cat.c:219-227 | When a source is named on the command line, the result does not depend on standard input. |
| CatMain.PrintSource | cat.c:224-233 | One source: it opens exactly when it is "-" or an openable file, and then printFile's output for it is written. |
| CatMain.LoopAdvance | cat.c:223-235 | A printed source moves the loop's invariant on by one. |
| CatMain.LoopFails | cat.c:228-231 | A source that cannot be opened ends the loop with status 2 and what was written before it. |
| CatMain.LoopEnds | cat.c:237 | After the last source the loop ends with status 0. |
| CatMain.RunSourcesLoop | cat.c:223-237 | The loop over the sources returns the status and the output of the reference loop. |
| CatMain.RunMain | cat.c:212-238 | main returns the status, usage text and output of the reference `Main`. |

## Left out

- Input and output streams are sequences of bytes. Reading a byte is taking the next element, and `fprintf` to `out` is appending to an output sequence. Buffering and write errors are not modelled.
- Opening a file is a lookup in a map from openable names to contents; why `fopen` fails is not modelled.
- `fclose` after each source (cat.c:234), including `fclose(stdin)`, is left out. main never names standard input twice (CatMain.StdinAtMostOnce: its sources are ["-"] alone or hold no "-"), so nothing reads it after it is closed. Only `RunSources` applied directly to a list holding "-" twice would read the whole of standard input again.
- The usage text of `help` (cat.c:192-207) is modelled only as a flag in the outcome; its lines are not.
- Messages written to standard error (cat.c:48, 91, 98, 133, 229) are not modelled.
- A failing `realloc` in `line_alloc` (cat.c:132-135: message and exit status 3) is not modelled. The buffer is an array that is always allocated.
- Bytes are `0..255`. In C, `char` may be signed, and `printChar` then sees a byte of 0x80 or more as negative. The model follows the evident intent, unsigned bytes, which is what `c & 0x80` and `c - 0x80` compute on the byte's bits.
- `isspace` is the C locale's: space, \t, \n, \v, \f, \r. Other locales are not modelled.
- ScannerProperties.Numbering: the counter `number` is an unbounded natural; the overflow of a C `int` after 2147483647 numbered lines is not modelled. The same holds for `line_len` and `line_cap` (LineBuffers.LineBuffer.Push).
- The argument strings are sequences of characters without the terminating NUL; `argv[i][1]` on a one-character token reads that NUL in C, which the model writes as a length test.
