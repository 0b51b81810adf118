# Symbol tables, crash reports and the build command interpreter

A Dafny model of three pieces of the Cosmopolitan C library, with proofs about them.

- **Symbol-table loader and address resolver** (`symtab.dfy`, module `SymbolTables`), from `libc/runtime/getsymboltable.c`.
  - It finds the `.symtab` record in the zip central directory that is appended to the executable.
  - It copies or inflates that record into an anonymous mapping.
  - It keeps the lazily built `__symtab` singleton behind a try-lock.
  - `__get_symbol` binary-searches the table for the symbol whose address range contains an address.
- **Crash-report formatting** (`oncrash.dfy`, module `CrashReport`), from `libc/log/oncrash_amd64.c`.
  - This covers fixed-width hex output (`HexCpy`) and the flag mnemonics (`AddFlag`, `DescribeCpuFlags`).
  - It also covers the general-register block and the SSE block. Both are written through a cursor into a character buffer.
- **The crash handler's decisions** (`crash_handler.dfy`, module `CrashHandler`), from the same file.
  - It decides the "Stack Overflow" label and assembles the report buffer.
  - It prints the argv line.
  - It chooses between handing off to an attached debugger and reporting then re-raising (`RaiseCrash`).
- **The `cocmd` command interpreter** (`cocmd.dfy`, module `CommandInterpreter`), from `libc/stdio/cocmd.c`.
  - It fills the table of rejected bytes and checks its arguments.
  - `Tokenize` is a three-state tokenizer (unquoted, single-quoted, double-quoted) that moves the cursors `p` into the command and `q` into `argbuf`.
  - It classifies each token as a redirection, a descriptor duplication or a plain argument.
  - It ends with `Exec`.

`wrappers.dfy` holds the `Option` type and a byte type.

Each imperative routine is a method on arrays or on a class. Each is proved against a function that specifies it:
- `FindSymtabInZip` is proved against `FirstSymtab`.
- `HexCpy` is proved against `HexDigits`.
- `ShowSseRegisters` is proved against `SseText`.
- `Interpreter.Tokenize` is proved against `TokenAt`.
- `Interpreter.Interpret` is proved against `Drive`.

Lemmas then state what the source promises about those functions. Examples are hex round trips, the printing order of the registers, exact buffer lengths, quoting round trips, exit codes and the argument bound.

Outside effects are recorded as event sequences, such as memory operations or what the crash handler and the interpreter do to the process. Inputs the code cannot see are parameters, such as what `_mapanon` returns, the inflater, `IsDebuggerPresent` and the formatted header.

## Model

| member | source | states |
|---|---|---|
| SymbolTables.FindFromIsFirst | libc/runtime/getsymboltable.c:41-54 | The linear reference finds nothing exactly when no walked record is named `.symtab`. Otherwise it finds the first such record. |
| SymbolTables.FindSymtabInZip | libc/runtime/getsymboltable.c:41-54 | Walks the directory, stepping by each record's header size. Returns the offset of the first `.symtab` record, or -1 when there is none. |
| SymbolTables.RoundUpToFrame | libc/runtime/getsymboltable.c:67 | The mapping size is a multiple of FRAMESIZE that is at least the entry size and less than the entry size plus FRAMESIZE. |
| SymbolTables.Fill | libc/runtime/getsymboltable.c:68-71 | The mapping holds the copied bytes first and zeros after them. |
| SymbolTables.ZipMapping | libc/runtime/getsymboltable.c:60-90 | No table without a `.symtab` record or without a mapping. Otherwise the first request maps the rounded-up size. A stored entry loads whenever the mapping succeeds, and its first `size` bytes equal its content. A deflated entry loads exactly when mapping and inflating succeed, and it holds the inflater's output up to `size` bytes. A loaded table stays mapped: the mapping is its only operation. Any failure unmaps what it mapped. |
| SymbolTables.GetSymbolTableFromZip | libc/runtime/getsymboltable.c:60-90 | Returns the mapping and the memory operations of ZipMapping. |
| SymbolTables.Publish | libc/runtime/getsymboltable.c:131-136 | `names` and `name_base` are the table base plus `names_offset` and `name_base_offset`. |
| SymbolTables.GetSymbolTableFromElf | libc/runtime/getsymboltable.c:96-104 | A table comes from the debug binary only with the rpath promise and a located binary. |
| SymbolTables.Construct | libc/runtime/getsymboltable.c:129-141 | The zip source is tried first. The debug binary is tried only when the zip gave nothing. |
| SymbolTables.SymbolTableService.GetSymbolTable | libc/runtime/getsymboltable.c:126-144 | When the lock is held: returns null and leaves `__symtab` unchanged. Builds only when `__symtab` is null and the process is not a worker. Releases the lock it took. |
| SymbolTables.SymbolTableService.GetSymbolTableTwice | libc/runtime/getsymboltable.c:126-144 | Once a table is built, the next call that gets the lock returns the same table. |
| SymbolTables.SymbolTableService.Chosen | libc/runtime/getsymboltable.c:158-161 | A null `t` falls back to `__symtab`. There is no table only when both are null. |
| SymbolTables.SymbolTableService.GetSymbol | libc/runtime/getsymboltable.c:152-178 | -1 without a table. Otherwise the search finds -1 or an index whose range contains the 32-bit key. On a table sorted by range end, that index equals the linear Lookup. The index is returned through the C `int`, as `Int32Of` of it. |
| SymbolTables.Int32Of | libc/runtime/getsymboltable.c:152-174 | An unsigned 32-bit index read as a C `int`: in [-2^31, 2^31) and equal to the index modulo 2^32. |
| SymbolTables.IndexAsInt | libc/runtime/getsymboltable.c:152-174 | An index comes back unchanged exactly when it is below 2^31. It comes back as -1 exactly when it is 0xFFFFFFFF, and negative from 2^31 up. |
| SymbolTables.Key | libc/runtime/getsymboltable.c:164 | The key is `a - addr_base` reduced to unsigned 32 bits. It is congruent to the difference. |
| SymbolTables.Midpoint | libc/runtime/getsymboltable.c:166 | The midpoint stays inside the search window. |
| SymbolTables.MidpointAsWrittenLeavesWindow | libc/runtime/getsymboltable.c:166 | In 32-bit arithmetic, the midpoint of a window high in a table of over 2^31 entries falls below the window. |
| SymbolTables.MidpointAgreesForSmallTables | libc/runtime/getsymboltable.c:166 | For tables of up to 2^31 entries, the 32-bit midpoint is the true one. |
| SymbolTables.LowerBoundIs | libc/runtime/getsymboltable.c:165-172 | The search's loop invariants pin down the linear lower bound: all ends below `l` are under k, and the end at `l` is at least k. |
| SymbolTables.LowerBoundIsFirst | libc/runtime/getsymboltable.c:165-172 | The lower bound is the first index whose range end reaches k. |
| SymbolTables.LookupExact | libc/runtime/getsymboltable.c:173-177 | On an ordered table the lookup misses exactly when no range contains k. Otherwise it gives the least containing index. |
| CrashReport.HexDigits | libc/log/oncrash_amd64.c:119-123 | Fixed width: n digits. |
| CrashReport.HexRoundTrip | libc/log/oncrash_amd64.c:119-123 | Decoding the n digits of a value below 16^n gives the value back. |
| CrashReport.HexRoundTrip64 | libc/log/oncrash_amd64.c:119-123 | With k = 64, the 16 digits decode to the 64-bit value. |
| CrashReport.HexValueOfDigit | libc/log/oncrash_amd64.c:120 | Each digit of the lowercase alphabet decodes to its position. |
| CrashReport.HexCpy | libc/log/oncrash_amd64.c:119-123 | Writes the k/4 hex digits of the low k bits, most significant first. Then writes a NUL and returns the cursor at the NUL. |
| CrashReport.Stpcpy | libc/log/oncrash_amd64.c:86 | Copies a NUL-free string at the cursor, stores its NUL after it, returns the cursor on that NUL, and leaves the buffer before the block unchanged. |
| CrashReport.AddFlag | libc/log/oncrash_amd64.c:84-91 | Copies s and advances only when b is non-zero. Otherwise stores a NUL and returns the same cursor. |
| CrashReport.CpuFlagsText | libc/log/oncrash_amd64.c:96-103 | Three characters per set flag. |
| CrashReport.FpuExceptionsText | libc/log/oncrash_amd64.c:104-110 | Three characters per set exception bit of x87sw OR mxcsr. |
| CrashReport.StatusText | libc/log/oncrash_amd64.c:111-115 | At most the five status mnemonics. |
| CrashReport.FlagsText | libc/log/oncrash_amd64.c:93-117 | The flags text is bounded by MaxFlagsText. |
| CrashReport.FlagsTextHasNoNul | libc/log/oncrash_amd64.c:93-117 | The flags text holds no NUL, so each copied mnemonic is copied whole. |
| CrashReport.CarryShown | libc/log/oncrash_amd64.c:96-103 | With bit 0 set, the text starts with " CF". |
| CrashReport.CpuFlagShown | libc/log/oncrash_amd64.c:96-103 | For each of the 12 bits, its letter from kCpuFlags is in the CPU flags text exactly when the bit is set. |
| CrashReport.LaterLetterAbsent | libc/log/oncrash_amd64.c:96-103 | The text for the first n bits holds no letter of bit n or above. |
| CrashReport.SegmentLetter | libc/log/oncrash_amd64.c:98-100 | What bit i appends holds letter i when the bit is set, and no other flag letter. |
| CrashReport.CpuFlagsTextPrefix | libc/log/oncrash_amd64.c:96-103 | The text for the first m bits is a prefix of the text for the first n bits. |
| CrashReport.AddCpuFlags | libc/log/oncrash_amd64.c:96-103 | Writes space, letter, `F` for each set bit among the low 12, in bit order, with letters from `CVPRAKZSTIDO`. |
| CrashReport.AddFpuExceptions | libc/log/oncrash_amd64.c:104-110 | Writes space, letter, `E` for each of the low 6 bits of x87sw OR mxcsr, with letters from `IDZOUP`. |
| CrashReport.AddFpuStatus | libc/log/oncrash_amd64.c:111-115 | The five AddFlag calls for SF, C0, C1, C2 and C3. |
| CrashReport.DescribeCpuFlags | libc/log/oncrash_amd64.c:93-117 | Writes exactly FlagsText, ends on a NUL and returns the cursor at it. |
| CrashReport.OrderAt | libc/log/oncrash_amd64.c:59-61 | Every printing slot names a register index below 17. |
| CrashReport.NameAt | libc/log/oncrash_amd64.c:63-66 | Register names have two or three letters. |
| CrashReport.GregOrderIsPermutation | libc/log/oncrash_amd64.c:59-61 | The order visits each of the 17 registers exactly once. |
| CrashReport.PrintedNames | libc/log/oncrash_amd64.c:59-66 | The printing order is RAX RBX RDI / RCX RDX RSI / RBP RSP RIP / R8 R9 R10 / R11 R12 R13 / R14 R15. |
| CrashReport.Lead | libc/log/oncrash_amd64.c:132-134 | A separating space except at a line start, then the name right-aligned in three columns, then a space. |
| CrashReport.DecText | libc/log/oncrash_amd64.c:154-155 | The digits of FormatUint64: at least one, all decimal, no leading zero, and at most three below 1000. |
| CrashReport.DecRoundTrip | libc/log/oncrash_amd64.c:154-155 | The digits read back as the number printed. |
| CrashReport.ThousandthsReadBack | libc/log/oncrash_amd64.c:155 | The three padded digits read back as the thousandths. |
| CrashReport.MilliText | libc/log/oncrash_amd64.c:151-155 | A finite value prints in at most 7 characters. |
| CrashReport.MilliTextReadsBack | libc/log/oncrash_amd64.c:151-155 | The integer part, the point and the three digits after it read back as the value in thousandths. |
| CrashReport.MilliTextAsWritten | libc/log/oncrash_amd64.c:151-155 | No contract of its own: the integer part, a point and the thousandths, both through FormatUint64. FractionUnpaddedAsWritten states where it departs from MilliText. |
| CrashReport.FractionUnpaddedAsWritten | libc/log/oncrash_amd64.c:155 | As written, 1062 thousandths print as "1.62" where the padded text is "1.062"; 1620 print as "1.620" in both. |
| CrashReport.StText | libc/log/oncrash_amd64.c:143-156 | A sign when the sign bit is set, then `nan`, `inf` or the clamped value: at most 8 characters. |
| CrashReport.StTextHasNoNul | libc/log/oncrash_amd64.c:143-156 | The text of an x87 value holds no NUL. |
| CrashReport.StSuffix | libc/log/oncrash_amd64.c:138-157 | With FPU state, the line carries " ST(k) " and the value. Without it, nothing. |
| CrashReport.LineEnd | libc/log/oncrash_amd64.c:136-159 | After every third register: the ST suffix and a newline. |
| CrashReport.GregsText | libc/log/oncrash_amd64.c:130-160 | Its contract bounds the block by 1 + 37n characters. The layout, a newline and then one row per register in printing order, is stated by ShowRegisterLines and FieldReadsBack. |
| CrashReport.FieldReadsBack | libc/log/oncrash_amd64.c:132-135 | Each field is the right-aligned name, a space and 16 hex digits that decode to the register. |
| CrashReport.GregsTextLengthWithoutFpuAfter | libc/log/oncrash_amd64.c:130-160 | Without FPU state the block after n registers is a newline, 20 characters per field, a space before each field that does not start a line, and a newline after every third field. |
| CrashReport.RowLengthWithoutFpu | libc/log/oncrash_amd64.c:140-157 | Without FPU state a row is 20 characters, plus a space unless it starts a line, plus a newline when it ends one. |
| CrashReport.GregsTextLengthWithoutFpu | libc/log/oncrash_amd64.c:130-160 | Without FPU state the block is exactly 357 characters. |
| CrashReport.ShowRegister | libc/log/oncrash_amd64.c:131-159 | One pass of the loop: appends the register's row (the lead, 16 hex digits and the line end) to the block so far. It advances j and k as the source does. |
| CrashReport.ShowRegisterLines | libc/log/oncrash_amd64.c:131-159 | The loop over the 17 registers: after the leading newline, writes every register's row in printing order, and nothing before the block changes. |
| CrashReport.ShowGregs | libc/log/oncrash_amd64.c:130-160 | Writes exactly GregsText for the 17 registers. |
| CrashReport.ShowGeneralRegisters | libc/log/oncrash_amd64.c:125-167 | As written: the block, then a newline stored at the cursor DescribeCpuFlags started from. The report keeps no flags. |
| CrashReport.FlagsThenNewline | libc/log/oncrash_amd64.c:161-166 | The discarded flags cursor: only the newline remains, one byte past the old cursor. |
| CrashReport.ShowGeneralRegistersFixed | libc/log/oncrash_amd64.c:125-167 | As intended: the block, the flags text, then a newline. |
| CrashReport.RegistersText | libc/log/oncrash_amd64.c:125-167 | The intended text fits the bound used for the buffer. |
| CrashReport.FlagsLostAsWritten | libc/log/oncrash_amd64.c:161-166 | With CF set, the intended text has " CF" right after the block. The as-written text does not. |
| CrashReport.IndexText | libc/log/oncrash_amd64.c:177-183 | An index is always two characters. |
| CrashReport.IndexReadsBack | libc/log/oncrash_amd64.c:177-183 | Single digits are padded with a trailing space, and the digits read back as the index. |
| CrashReport.XmmText | libc/log/oncrash_amd64.c:174-186 | One register is 35 characters. |
| CrashReport.XmmReadsBack | libc/log/oncrash_amd64.c:184-186 | The index, a space, then the high and the low halves, each decoding back. |
| CrashReport.SseLine | libc/log/oncrash_amd64.c:173-199 | Each line is 78 characters. |
| CrashReport.SseLineLayout | libc/log/oncrash_amd64.c:173-199 | Line i pairs XMMi with XMM(i+8) at fixed columns and ends in a newline. |
| CrashReport.SseLines | libc/log/oncrash_amd64.c:173-199 | n lines are 78n characters. |
| CrashReport.SseText | libc/log/oncrash_amd64.c:169-202 | No contract of its own: nothing without FPU state, else a newline and the eight lines. SseTextLength, SseLineAt and SseLineLayout state its length and layout. |
| CrashReport.SseLineAt | libc/log/oncrash_amd64.c:173-199 | Line i sits at offset 78i of the block. |
| CrashReport.SseTextLength | libc/log/oncrash_amd64.c:169-202 | Nothing without FPU state. Otherwise exactly 1 + 8·78 characters. |
| CrashReport.EmitIndex | libc/log/oncrash_amd64.c:177-183 | Writes the two index characters. |
| CrashReport.ShowXmm | libc/log/oncrash_amd64.c:177-186 | Writes the index, a space and the two halves. |
| CrashReport.ShowSseLine | libc/log/oncrash_amd64.c:174-198 | Writes line i. |
| CrashReport.ShowSseRegisters | libc/log/oncrash_amd64.c:169-202 | Writes exactly SseText. |
| CrashHandler.IsStackOverflow | libc/log/oncrash_amd64.c:233-237 | No contract of its own: a context whose rsp lies in [stack, stack + pagesize]. OverflowWindowEnds states both ends of the window. |
| CrashHandler.FaultLabel | libc/log/oncrash_amd64.c:233-237 | No contract of its own: "Stack Overflow" for a stack overflow, else the si_code text. NoContextNoOverflow and OverflowWindowEnds state when each is chosen. |
| CrashHandler.NoContextNoOverflow | libc/log/oncrash_amd64.c:233-237 | Without a context, the label is the si_code description. |
| CrashHandler.OverflowWindowEnds | libc/log/oncrash_amd64.c:233-237 | The stack-overflow window includes both its ends. It excludes the byte below the window and the byte beyond it. |
| CrashHandler.ReportTail | libc/log/oncrash_amd64.c:240-249 | The part after the header fits its bound. |
| CrashHandler.Formatted | libc/log/oncrash_amd64.c:226-239 | A formatter given limit n stores a prefix of the text shorter than n, the whole text when it fits. |
| CrashHandler.HeaderOverrunsAsWritten | libc/log/oncrash_amd64.c:211-249 | As written, a header text of 3000 to 9999 bytes is stored whole, and the report after it exceeds the 3000 bytes of buf. |
| CrashHandler.FormatterCount | libc/log/oncrash_amd64.c:226-231 | What the formatter returns is never less than what a limit lets it store. |
| CrashHandler.ClampedCount | libc/log/oncrash_amd64.c:226-231 | The corrected cursor step stays below the limit and within the count, and equals the count when the text fits. |
| CrashHandler.ClampedCountIsStored | libc/log/oncrash_amd64.c:226-231 | The clamped count is exactly the length of what was stored. |
| CrashHandler.CursorOverrunsAsWritten | libc/log/oncrash_amd64.c:226-231 | As written, a header text of 3000 bytes or more leaves the cursor at or past the end of buf, beyond what was stored. |
| CrashHandler.ReportFits | libc/log/oncrash_amd64.c:211-249 | With the header bounded by the room buf leaves and the cursor clamped to what was stored, the report fits in 3000 bytes for every header text and context. |
| CrashHandler.FillReport | libc/log/oncrash_amd64.c:211-249 | The 3000-byte buffer handed to klog holds the bounded header, then the register, SSE and newline text, or only a newline without a context. The cursor advances by the clamped count. The length stays below 3000. |
| CrashHandler.ReportTailShape | libc/log/oncrash_amd64.c:240-249 | The tail is one newline without a context. With FPU state it is 1 + 8·78 characters longer. |
| CrashHandler.PrintArgv | libc/log/oncrash_amd64.c:253-260 | Prints each present argument followed by a space, then a newline. |
| CrashHandler.ArgvTextAppend | libc/log/oncrash_amd64.c:253-258 | The text of two runs of arguments is the two texts in turn. |
| CrashHandler.NullSkipped | libc/log/oncrash_amd64.c:255 | A null entry prints nothing. |
| CrashHandler.PresentPrinted | libc/log/oncrash_amd64.c:257 | A present entry prints as itself and a space. |
| CrashHandler.RaiseCrash | libc/log/oncrash_amd64.c:263-271 | Four steps, the last being exit with status 128 + sig. |
| CrashHandler.HandsOff | libc/log/oncrash_amd64.c:294 | No contract of its own: a positive debugger pid and SIGTRAP or SIGQUIT. HandOffStopsAtBreak and ReportUnlessHandOff state what it decides. |
| CrashHandler.OnCrash | libc/log/oncrash_amd64.c:273-299 | No contract of its own: the handler's events in order. VitalLineThenTracingOff, ReportUnlessHandOff, ReportedCrashEndsInExit and HandOffStopsAtBreak state them. |
| CrashHandler.VitalLineThenTracingOff | libc/log/oncrash_amd64.c:279-289 | The vital line comes first, then both kinds of tracing are switched off, before any report. |
| CrashHandler.ReportUnlessHandOff | libc/log/oncrash_amd64.c:291-298 | The report is shown exactly when the handler does not hand off. The breakpoint is raised exactly when a debugger pid was found. |
| CrashHandler.ReportedCrashEndsInExit | libc/log/oncrash_amd64.c:294-298 | A reported crash ends by restoring the default action, sending the signal and exiting with 128 + sig. |
| CrashHandler.HandOffStopsAtBreak | libc/log/oncrash_amd64.c:291-298 | On a handoff nothing follows the breakpoint. |
| CommandInterpreter.SyntaxCharactersAccepted | libc/stdio/cocmd.c:212-229 | The terminators, quotes, backslash, pipe and redirection characters are not rejected. |
| CommandInterpreter.DigitsAccepted | libc/stdio/cocmd.c:212-229 | Digits are not rejected. |
| CommandInterpreter.ControlCharactersRejected | libc/stdio/cocmd.c:212-229 | Newline, carriage return and DEL are rejected. |
| CommandInterpreter.WideCharactersAccepted | libc/stdio/cocmd.c:127-129 | A character above 255, which stands for the UTF-8 bytes of a non-ASCII character, is never rejected and is copied as it is. |
| CommandInterpreter.InitUnsupported | libc/stdio/cocmd.c:212-229 | The filled table marks exactly bytes 1–31 except tab, DEL, and the 13 punctuation characters. |
| CommandInterpreter.MarkPunctuation | libc/stdio/cocmd.c:217-229 | Marks the 13 punctuation characters and leaves the rest of the table unchanged. |
| CommandInterpreter.SkipOver | libc/stdio/cocmd.c:117-121 | From a run of spaces and tabs, the skip stops exactly on the first non-blank after it. |
| CommandInterpreter.Skip | libc/stdio/cocmd.c:117-121 | Stops on the first position that is not blank. Every skipped position is a space, a tab, a newline, or a backslash followed by a newline. |
| CommandInterpreter.Lex | libc/stdio/cocmd.c:122-190 | Every end of a Tokenize call satisfies the following. A failure exits 4 or 6. A token stops on a terminator, extends what was written, and writes at most one byte per byte consumed. |
| CommandInterpreter.LexShell | libc/stdio/cocmd.c:126-151 | The unquoted state, with the same ending guarantees. A stage-starting pipe is consumed with the blanks after it. |
| CommandInterpreter.LexStr | libc/stdio/cocmd.c:153-162 | The single-quoted state always consumes the closing quote before a token ends. |
| CommandInterpreter.LexQuo | libc/stdio/cocmd.c:164-189 | The double-quoted state always consumes the closing quote before a token ends. |
| CommandInterpreter.LexAsWritten | libc/stdio/cocmd.c:114-195 | Tokenize as written, with the pipe's double step. Whenever it does not read past the NUL, it ends as Lex does: an exit 4 or 6, or a token within the command on a terminator, no longer than what it consumed. |
| CommandInterpreter.PipeSkipsByteAsWritten | libc/stdio/cocmd.c:140-147 | As written, pipe-then-`b` yields an empty token where the corrected tokenizer yields `b`. A trailing pipe reads past the NUL. |
| CommandInterpreter.EchoPipeCatAsWritten | libc/stdio/cocmd.c:140-147 | After `echo`, the as-written call on `echo`-pipe-`cat` yields `at` where the corrected one yields `cat`. |
| CommandInterpreter.AgreesOnSpacedPipes | libc/stdio/cocmd.c:122-190 | As-written and corrected tokenizers agree on every command where each pipe is followed by exactly one space, tab or newline and then by something other than a blank, the form `a` pipe `b`, and so on every command with no pipe. |
| CommandInterpreter.SpacedPipeReadsNextWord | libc/stdio/cocmd.c:140-147 | On `a` space-pipe-space `b`, both tokenizers start the stage and read `b`. |
| CommandInterpreter.TrailingPipe | libc/stdio/cocmd.c:140-147 | On `a` space-pipe at the end of the command: as written the tokenizer reads past the NUL; the corrected one ends an empty word at the NUL, where Tokenize before a token returns the null pointer. |
| CommandInterpreter.TokenAt | libc/stdio/cocmd.c:114-195 | A token ends past the cursor and inside the command. Its text is no longer than what it consumed from the first non-blank. |
| CommandInterpreter.SingleQuotedVerbatim | libc/stdio/cocmd.c:153-162 | Inside single quotes every byte is copied as it is. |
| CommandInterpreter.DoubleQuotedVerbatim | libc/stdio/cocmd.c:164-189 | Inside double quotes every byte except a quote, a backslash or NUL is copied as it is. |
| CommandInterpreter.QuotedWordTokenizes | libc/stdio/cocmd.c:126-162 | A single-quoted word followed by a space or the end is one token: the word. |
| CommandInterpreter.PlainRun | libc/stdio/cocmd.c:126-151 | A run of ordinary bytes in the unquoted state is appended to the token, in both tokenizers. |
| CommandInterpreter.ShellStops | libc/stdio/cocmd.c:130-132 | In the unquoted state a NUL, space or tab ends the token there, in both tokenizers. |
| CommandInterpreter.RejectedAfterRun | libc/stdio/cocmd.c:126-129 | After any run of ordinary bytes, a byte the table rejects exits 4, in both tokenizers. |
| CommandInterpreter.TrailingBackslash | libc/stdio/cocmd.c:137-139 | After any run of ordinary bytes, a backslash with nothing after it exits 4, in both tokenizers. |
| CommandInterpreter.StrUnterminated | libc/stdio/cocmd.c:153-156 | A single-quoted string that the rest of the command never closes exits 6, in both tokenizers. |
| CommandInterpreter.QuoUnterminated | libc/stdio/cocmd.c:164-167 | A double-quoted string without backslashes that the rest of the command never closes exits 6, in both tokenizers. |
| CommandInterpreter.QuoTrailingBackslash | libc/stdio/cocmd.c:164-173 | Inside double quotes, after any run of bytes other than a quote, a backslash or the NUL, a backslash with nothing after it exits 4, in both tokenizers. |
| CommandInterpreter.ShellPipeStarts | libc/stdio/cocmd.c:140-147 | A pipe that starts a token starts a new stage. The corrected tokenizer goes on after the blanks that follow; the as-written one two bytes on. |
| CommandInterpreter.PlainWord | libc/stdio/cocmd.c:126-151 | An ordinary word followed by a NUL, space or tab is read whole, in both tokenizers. |
| CommandInterpreter.WordBeforePipe | libc/stdio/cocmd.c:140-147 | A word followed straight away by a pipe is returned, and the pipe is left for the next call. |
| CommandInterpreter.PipeThenWordAsWritten | libc/stdio/cocmd.c:140-147 | As written, a word right after a stage-starting pipe loses its first byte. |
| CommandInterpreter.PipeThenWord | libc/stdio/cocmd.c:140-147 | A word right after a stage-starting pipe: the corrected tokenizer reads it whole, the as-written one without its first byte. |
| CommandInterpreter.PipeThenQuotedWord | libc/stdio/cocmd.c:140-147 | A stage-starting pipe is consumed with any spaces or tabs after it. A quoted word after them is read whole, whether or not spaces separate it from the pipe. |
| CommandInterpreter.QuotedWordAt | libc/stdio/cocmd.c:153-162 | A quoted word followed by a space, read byte by byte: the opening quote, the word, the closing quote and the space. |
| CommandInterpreter.QuotedAtFromQuote | libc/stdio/cocmd.c:114-195 | A single-quoted rendering of words lies, word by word, at its position. |
| CommandInterpreter.WordsAfterFirstWord | libc/stdio/cocmd.c:114-195 | Past the first quoted word the rest of the rendering follows, and reading the rest reads the whole. |
| CommandInterpreter.QuotedWordsFrom | libc/stdio/cocmd.c:114-195 | Quoted words without quotes or NULs tokenize back to the words. |
| CommandInterpreter.QuoteRoundTrip | libc/stdio/cocmd.c:114-195 | Tokenizing a single-quoted rendering gives back the original words. |
| CommandInterpreter.Classify | libc/stdio/cocmd.c:248-268 | Duplications name single-digit descriptors. A redirection's operator lies within the token. |
| CommandInterpreter.PlainExactly | libc/stdio/cocmd.c:248-265 | A token is a plain argument exactly when it starts with none of `<`, `>` or digit-`>`. |
| CommandInterpreter.RedirectRoundTrip | libc/stdio/cocmd.c:248-265 | Every redirection operator classifies back to its descriptor and mode, with its path right after it. |
| CommandInterpreter.DupRoundTrip | libc/stdio/cocmd.c:248-252 | `N>&M` and `>&M` classify as dup2(M, N) and dup2(M, 1). |
| CommandInterpreter.RedirectArg | libc/stdio/cocmd.c:197-205 | The path is the rest of the token, else the next token. With neither, exit 14. |
| CommandInterpreter.Exec | libc/stdio/cocmd.c:89-96 | No contract of its own: exit 5 without arguments, otherwise execvp of them. DriveExitCodes and DriveArgsFit state what reaches it. |
| CommandInterpreter.Pipes | libc/stdio/cocmd.c:98-112 | k stages started in a row are k spawns: the first runs the arguments gathered so far, each later one runs none. |
| CommandInterpreter.Drive | libc/stdio/cocmd.c:244-274 | No contract of its own: the token loop and Exec. DriveExitCodes, DriveArgsFit, DriveAtEnd, DriveAfterBlank, DriveAfterQuotedWord, DrivePlainStep, QuotedCommandRuns and PipelinesRun state what it does, and Interpreter.Interpret is proved equal to it. |
| CommandInterpreter.DriveExitCodes | libc/stdio/cocmd.c:244-274 | Every exit of the token loop and Exec is 4, 5, 6, 13 or 14. |
| CommandInterpreter.DriveArgsFit | libc/stdio/cocmd.c:244-274 | What is executed has between 1 and 8191 arguments, so `args[n] = 0` stays inside args. |
| CommandInterpreter.DriveAtEnd | libc/stdio/cocmd.c:244-274 | At the end of the command the loop stops and Exec runs the arguments. |
| CommandInterpreter.DriveAfterBlank | libc/stdio/cocmd.c:117-121 | Leading blanks do not change the run. |
| CommandInterpreter.DriveAfterQuotedWord | libc/stdio/cocmd.c:244-265 | A quoted plain word adds one argument. |
| CommandInterpreter.EchoPipeCatTokens | libc/stdio/cocmd.c:114-195 | The calls on `echo`-pipe-`cat` give `echo` cut at the pipe, then `cat` in a new stage, then no token. |
| CommandInterpreter.SpacedPipeTokens | libc/stdio/cocmd.c:114-195 | The calls on `a` space-pipe-space `b` give `a`, then `b` in a new stage, then no token. |
| CommandInterpreter.DrivePlainStep | libc/stdio/cocmd.c:246-266 | A plain token starts the stages before it and joins the current stage's arguments. |
| CommandInterpreter.PipelinesRun | libc/stdio/cocmd.c:98-112 | `echo`-pipe-`cat` spawns `echo` and execs `cat`. The spaced `a` pipe `b` spawns `a` and execs `b`. |
| CommandInterpreter.DriveAfterFirstWord | libc/stdio/cocmd.c:244-265 | Past the first quoted plain word the rest still fits, and running the rest from there is running the whole. |
| CommandInterpreter.QuotedRunFrom | libc/stdio/cocmd.c:244-274 | Quoted plain words that fit execute exactly those words after the arguments so far. |
| CommandInterpreter.QuotedCommandRuns | libc/stdio/cocmd.c:244-274 | A quoted rendering of plain words executes those words, with nothing opened, duplicated or piped. |
| CommandInterpreter.Interpreter.constructor | libc/stdio/cocmd.c:239-245 | `p = cmd`, `n = 0`, `q = argbuf`, and the state is valid. |
| CommandInterpreter.Interpreter.Pipe | libc/stdio/cocmd.c:98-112 | A stage runs the arguments so far, and the count returns to 0. |
| CommandInterpreter.Interpreter.SkipBlanks | libc/stdio/cocmd.c:117-121 | Moves p to where Skip stops. |
| CommandInterpreter.Interpreter.Tokenize | libc/stdio/cocmd.c:114-195 | Returns what TokenAt gives, leaves p where the token stopped, and records the stages it started. Every write stays inside argbuf. |
| CommandInterpreter.Interpreter.ShellStep | libc/stdio/cocmd.c:126-151 | One pass of the unquoted state keeps the token's remaining result unchanged. After a stage-starting pipe it skips the blanks. |
| CommandInterpreter.Interpreter.StartStage | libc/stdio/cocmd.c:140-147 | A stage-starting pipe runs the stage so far and moves past the pipe, keeping the tokenizer's invariant. |
| CommandInterpreter.Interpreter.StrStep | libc/stdio/cocmd.c:153-162 | One pass of the single-quoted state keeps the token's remaining result unchanged. |
| CommandInterpreter.Interpreter.QuoEscape | libc/stdio/cocmd.c:170-185 | A backslash escape in double quotes moves two bytes on and keeps the tokenizer's invariant: the escaped byte is dropped, copied bare or copied with its backslash, as LexQuo says. |
| CommandInterpreter.Interpreter.QuoStep | libc/stdio/cocmd.c:164-189 | One pass of the double-quoted state keeps the token's remaining result unchanged. |
| CommandInterpreter.Interpreter.GetRedirectArg | libc/stdio/cocmd.c:197-205 | Returns what RedirectArg gives, with the same state effects as Tokenize. |
| CommandInterpreter.Interpreter.Interpret | libc/stdio/cocmd.c:244-274 | The token loop and Exec end exactly as Drive: the same outcome and the same events. |
| CommandInterpreter.Cocmd | libc/stdio/cocmd.c:207-275 | Exits 10 unless there are three arguments. Exits 11 unless the second is `-c`. Exits 12 when the command does not fit ARG_MAX. Otherwise runs Drive on the command. |

## Findings

| source | as written | input that shows it | evidently intended | confidence | as-written member | corrected member |
|---|---|---|---|---|---|---|
| libc/log/oncrash_amd64.c:161-166 | The cursor DescribeCpuFlags returns is dropped. The newline is then stored where the flags text began, so the report never shows the flags. | Any context whose eflags has bit 0 (CF) set: the report lacks " CF". | Keep the returned cursor, so the flags text stands before the newline. | not executed | CrashReport.FlagsLostAsWritten | CrashReport.ShowGeneralRegistersFixed |
| libc/runtime/getsymboltable.c:166 | The midpoint adds `l` and `r` in unsigned 32-bit arithmetic before halving. | A table of more than 2^31 symbols, with l = 0x80000000 and r = 0xFFFFFFFF, gives a midpoint below l. | A midpoint inside the window, as the unbounded sum gives. | not executed; only tables of more than 2^31 symbols are affected. Such tables also break the return: an index from 2^31 up comes back negative, and 0xFFFFFFFF comes back as -1 (SymbolTables.IndexAsInt) | SymbolTables.MidpointAsWrittenLeavesWindow | SymbolTables.Midpoint |
| libc/stdio/cocmd.c:140-147 | A pipe that starts a stage advances the cursor in its branch, and the loop advances it again. The byte after the pipe is never looked at. | `echo`-pipe-`cat` runs `at` (EchoPipeCatAsWritten). The token of pipe-then-`b` is empty. A trailing pipe reads past the NUL. | Step over the pipe and the blanks after it, as Tokenize does before a token; a pipe that ends the command then ends an empty word rather than returning the null pointer (TrailingPipe). As written, a pipe comes out right when exactly one space, tab or newline follows it and something other than a blank follows that, as in `a` pipe `b` (AgreesOnSpacedPipes); no blank or two blanks do not. | not executed | CommandInterpreter.PipeSkipsByteAsWritten | CommandInterpreter.PipelinesRun |
| libc/log/oncrash_amd64.c:155 | The thousandths of an x87 value are printed through FormatUint64, which drops their leading zeros. | ST = 1.0625 (1062 thousandths) prints as "1.62", which reads as 1.62. | Three digits after the point, leading zeros kept. | not executed | CrashReport.FractionUnpaddedAsWritten | CrashReport.MilliTextReadsBack |
| libc/log/oncrash_amd64.c:211-239 | The header is formatted with a limit of 10000 bytes into the 3000-byte buf. The register text is then appended after it. | A crash in a program whose program_invocation_name is 3000 bytes long: the header alone fills buf, and the rest of the report runs past it. With a text of 10000 bytes or more, only 9999 are stored, but `p +=` adds the whole length, so the cursor still lands past buf (CrashHandler.CursorOverrunsAsWritten). | Bound the header by the room buf leaves for the rest of the report, and advance the cursor by what was stored: the formatter's count clamped below the limit. | not executed | CrashHandler.HeaderOverrunsAsWritten | CrashHandler.ReportFits |

The binary search in `SymbolTables.SymbolTableService.GetSymbol` uses the corrected `Midpoint`. The report buffer in `CrashHandler.FillReport` uses `ShowGeneralRegistersFixed`. `FillReport` also bounds the header by `HeaderRoom` and clamps the cursor with `ClampedCount`. The interpreter (`Lex`, `LexShell` and `Interpreter.ShellStep`) consumes a stage-starting `|` with the blanks after it. The as-written tokenizer is `LexAsWritten`. The x87 values print through `MilliText` with three digits after the point.

## Left out

- The conversion of an 80-bit x87 value into thousandths: the multiplication by 1000 and the truncation in long double arithmetic. Each `ST(k)` is given as its sign bit and its class (NaN, infinity or finite). A finite value is given as its magnitude in thousandths, and the clamp to 999.999 is taken as 999999 thousandths.
- CrashReport.ShowGeneralRegisters: the as-written register block prints the x87 values with the corrected three-digit fraction. The unpadded fraction is modelled apart, in `MilliTextAsWritten`.
- `ksnprintf`, `gethostname`, `uname` and `strerror`. The header text of the report is a parameter of `CrashHandler.FillReport`. The formatter is taken to store at most limit - 1 bytes and to return the whole text's length, as snprintf does. ksnprintf is not part of this model.
- What is written to the terminal and logs: `klog`, `kprintf`, `__print_maps`, `ShowFunctionCalls` and `ShowBacktrace`, `DescribeBacktrace`, `ShowCrashReportHook`, the `STRACE` line, and the messages `Wexit`, `UnsupportedSyntax` and `SysExit` print. Only the exit statuses are modelled.
- CrashHandler.PrintArgv: the AddressSanitizer validity check on each argument is not modelled (every present argument prints).
- Signal masking, `signal`, `kill`, `_Exit`, `ftrace_enabled`, `strace_enabled`, `__restore_tty`, `DebugBreak` and `IsDebuggerPresent`. These are events in `CrashHandler.OnCrash`, and the debugger pid is a parameter.
- `GetStaticStackAddr(0)` and the page size are parameters of the stack-overflow test.
- `__inflate`, `_mapanon`, `munmap`, `FindDebugBinary`, `OpenSymbolTable`, `PLEDGED(RPATH)`, `__zipos_get` and the `ZIP_*` accessors are parameters of `SymbolTables.Loader`.
  - The central directory is a map from offsets to records.
  - The loaded bytes are read through an abstract header overlay.
- CrashHandler.FillReport: the corrected cursor relies on the formatter returning the whole text's length. A formatter that returned what it stored would make the clamp unnecessary but harmless.
- SymbolTables.SymbolTableService.GetSymbol: the conversion of the index to `int` is kept as written, not corrected. In a table of more than 2^31 symbols, a hit from index 2^31 up reads as negative, and a hit at 0xFFFFFFFF reads as a miss.
- SymbolTables.SymbolTableService.GetSymbolTable: `_trylock` and `_spunlock` are a sequential boolean flag. Atomicity and other threads are not modelled.
- `dup2`, `open`, `close`, `pipe2`, `vfork` and `execvp` in the interpreter are recorded events. The model does not cover:
  - the failures of `open`, `pipe2`, `vfork` and `execve` (exit statuses 7, 8, 9 and 127);
  - the memory the vfork child shares with the parent.
- CommandInterpreter.Cocmd: ARG_MAX is the size of the `argbuf` array it allocates (`argMax`).
- CommandInterpreter.Cocmd: compares the second argument with `-c` and measures the command as whole sequences. The source's `strcmp` and `strlen` stop at the first NUL, which a C argument holds only at its end.
- The buffer-writing methods of `CrashReport` state the buffer up to the cursor they return. They do not state the scratch NULs that `stpcpy` and `HexCpy` leave beyond it, except where the source returns a cursor at a NUL.
- Argument strings are sequences of characters; a NUL inside the command acts as its end, as in C. A character above 255 stands for the UTF-8 bytes of one non-ASCII character: all of them are at least 0x80, which the table never flags, and the tokenizer copies the character as one unit.
