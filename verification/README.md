# Proofs about the PVM testbed

The testbed boots a hypervisor, runs guests under it and decides from their output whether it works. This project models the parts of it that compute something and proves what they promise. `dafny verify dfyconfig.toml` checks all of it.

- **The hand-assembled guest** (`Bytes`, `GuestLayout`, `PageTables`, `Machine`, `GuestCode`, `Guest`, `SmodRun`, `PatternRun`). The builders write machine code and page tables in place into an array. A four-level page walk (Intel SDM volume 3A, section 4.5) and a fetch/decode/execute machine say what those bytes mean. The kernel's base address `kva` stays symbolic: any page-aligned lower-half address whose 17 pages lie in one 2MB region and whose PML4 slot is not the user's. `KVA_BASE` is one of them.
- **Two concurrent protocols** (`BootPool`, `Alarm`). `runPool` and `guestRun` with its alarm goroutine are step systems over every interleaving, with inductive invariants and termination measures.
- **The text tools of the agent** (`Text`, `Lines`, `Decimals`, `Histograms`, `Exits`, `Words`). Chunked and backwards line readers, a ring buffer, decimal comparison on strings, histogram sorting and the exit histogram's greedy pattern, each against a simple specification.
- **The cpio writer** (`Cpio`), against a reader written from the "New ASCII Format" section of cpio(5).
- **The result protocol** (`Harness`, `ResultLog`, `ResultLines`, `ResultProtocol`, `Phases`, `Marks`). What the guest prints, what the agent prefixes, what the host parses, how it judges, and the counters between two marks.
- **Parameters, manifests and quoting** (`Cmdlines`, `Params`, `GuestParams`, `Quoting`, `Kut`). Launch options over two command lines, the kvm-unit-tests manifest, and the two quoting splitters.
- **Macros, scheduling and statistics** (`MacroText`, `MacroEval`, `MacroTrees`, `Boots`, `Stats`).

A string stands for a Go byte string, one char to the byte. Integers are unbounded in Dafny; 64-bit wrap-around is written out where the code depends on it (macro values, host test counters, MSR counters, machine words).

Where a property does not hold of the code as it is, its exact condition is proved:

- The supervisor code gets back to user mode if and only if the stores of the PVCS's rip, eflags and selectors, wherever the control page puts the PVCS, all reach memory (`SmodRun.SmodReturnsExactly`): in addresses, the kernel's pages and, under the main root, the user code and stack pages (`SmodRun.MemoryAt`). If the first one does not, it stops there, in a fault or a device write, with memory as it was (`SmodRun.SmodRefused`). Left open are PVCS words with a field across a page boundary and those that make the code overwrite tables, control page or itself.
- The repeat-rule run faults on its list in order and then reports the count if and only if user mode can read none of the addresses and all are canonical (`PatternRun.RuleHolds`). The addresses the test itself computes always qualify (`Guests.PatternsFault`).
- The host's log parser panics if and only if a line is `FAILCLOSED: ` followed by white space only (`ResultLog.PanicsExactly`, `ResultLog.PanicsIs`); the bare prefix is such a line (`ResultLog.BarePrefixPanics`).
- The errors of a case are indented line by line; what it prints itself and what its notes go on with behind their first line are not. The host finds the passed cases in order if and only if their names are made of the characters the pattern knows and no such loose line is an ok verdict. It finds the failed ones, once each in order and whatever they are called, if and only if everything that loose lines, verdicts and the summary list as failed is a failed case that is listed already or the next to come, and each is listed somewhere (`ResultProtocol.NamesRecovered`); with names of those characters that is up to the loose lines alone (`ResultProtocol.GoodNamesInTurn`), and a failed case `a:b` is found as `a` (`ResultProtocol.ColonIsCut`). With such names the host's verdict is the guest's own if and only if a case failed or none ran, or else no loose line lists a failed case and nothing said in the run is a failed host test, in total and in 64 bits, or a failed load (`ResultProtocol.VerdictAgrees`). A note that goes on with a verdict line is an input that fails them (`ResultProtocol.NotesCanForge`).
- A case's name is the name of its phase if and only if it does not end in `/after` (`Marks.CaseMarks`); `x/after` is cut to `x` (`Marks.AfterIsCut`).
- A line of the exit trace is counted under its own reason if and only if the reason holds no bar and not the pattern's own ` reason ` (`Exits.ExitKeyIs`); `A|B` goes under another key (`Exits.BarIsCut`).
- An archive whose numbers fit eight hexadecimal digits reads back if and only if no member's name has a NUL in it or is `TRAILER!!!` (`Cpio.ImageReads`).
- The launch options arrive if and only if of each key the last thing the options and L1 arguments say, up to a blank, is what was given for it (`Params.OptionsArriveExactly`). It is when no value holds a blank or a key of the agent's (`Params.OptionsArrive`); a guest argument with the text of a key takes that option over (`Params.KeyInAnArgument`).
- The guest's extra arguments arrive if and only if, joined, they do not look like an option of `echo` (`GuestParams.WordsArrive`); `-n` alone does (`GuestParams.OneOptionIsLost`).
- The agent reads the tests of a manifest as they were listed if and only if their columns hold no tab or newline, no name starts with `#`, and the first line of the arguments has all their words with no test in the lines behind it (`Kut.ManifestReads`).
- With vendors that have no dash, as `pvm` and `intel` have none, no two boots of an item write to one log if and only if each side lists a vendor once, no vCPU count comes twice and at most one is not positive (`Boots.LogNamesDifferExactly`). A dash can be taken for a vCPU count (`Boots.DashClashes`).
- A number is read as itself if and only if it fits 64 bits (`MacroText.NumberReads`), and a macro that leads into a cycle is an error (`MacroEval.CyclesFail`).

## Model

| member | source | states |
|---|---|---|
| PageTables.WalkIsIntended | tools/hosttests/cmd/pvm_switcher_test/guest.go:310-351 | For every admissible kva and every 48-bit address, walking the main tables gives exactly the intended page and rights, or not present |
| PageTables.WalkAlt | tools/hosttests/cmd/pvm_switcher_test/guest.go:347-351 | The alternative root agrees with the main one on the kernel's PML4 slot and maps nothing else |
| PageTables.UserReach | tools/hosttests/cmd/pvm_switcher_test/guest.go:322-351 | An address is user-accessible at all levels exactly on the code, stack and report pages; whatever is mapped is writable |
| PageTables.TablesFrame | tools/hosttests/cmd/pvm_switcher_test/guest.go:322-351 | Memory writes outside the table pages leave every walk as it was |
| GuestCode.CodeIsListed | tools/hosttests/cmd/pvm_switcher_test/guest.go:94-110 | Bytes that are a listing laid end to end hold each of its instructions at its own offset |
| Guests.AsmBuf.Emit | tools/hosttests/cmd/pvm_switcher_test/guest.go:94-102 | Appends one instruction at the cursor, advancing position and address together and touching nothing else |
| Guests.AsmBuf.EmitMovabs | tools/hosttests/cmd/pvm_switcher_test/guest.go:104-110 | Appends the ten-byte movabs of a register and a 64-bit constant |
| Guests.AsmBuf.EmitLoadPgtbl | tools/hosttests/cmd/pvm_switcher_test/guest.go:163-175 | Appends one flag-0 LOAD_PGTBL hypercall of a control-page word |
| Guests.AsmBuf.EmitCopy | tools/hosttests/cmd/pvm_switcher_test/guest.go:132-159 | Appends the copy of the control page into the PVCS and the SYSCALL, returning the address of the SYSCALL |
| Guests.Guest.BuildSmodCode | tools/hosttests/cmd/pvm_switcher_test/guest.go:132-159 | Memory becomes the old one with the supervisor listing at its page; entry and return addresses are those of the listing |
| Guests.Guest.BuildPgtblSmodCode | tools/hosttests/cmd/pvm_switcher_test/guest.go:177-206 | The same for the page-table variant at offset 0x200 |
| Guests.Guest.BuildUmodFaultCode | tools/hosttests/cmd/pvm_switcher_test/guest.go:227-233 | The fault routine stands at its offset of the user code page |
| Guests.Guest.BuildUmodPatternCode | tools/hosttests/cmd/pvm_switcher_test/guest.go:248-264 | The pattern routine stands at its offset, 0x2f bytes long |
| Guests.Guest.PutPTE | tools/hosttests/cmd/pvm_switcher_test/guest.go:310-312 | One 64-bit little-endian entry changes and no other word of memory |
| Guests.Guest.BuildPageTables | tools/hosttests/cmd/pvm_switcher_test/guest.go:322-351 | Every word of the eight tables is the intended one, and nothing outside them changes |
| Guests.TablesPut | tools/hosttests/cmd/pvm_switcher_test/guest.go:322-351 | The separately written halves together fill the tables without overwriting one another |
| Guests.Guest.BuildGuest | tools/hosttests/cmd/pvm_switcher_test/guest.go:427-446 | All of guest memory is as specified afterwards: tables, the supervisor, fault and pattern routines and the control word; the first user routine and the event handlers' code are not written |
| Guests.Assembled | tools/hosttests/cmd/pvm_switcher_test/guest.go:427-446 | Code, tables and control word do not disturb each other |
| Guests.Guest.CtrlSet | tools/hosttests/cmd/pvm_switcher_test/guest.go:474-480 | The control page's rip, eflags and selectors are the given ones and nothing else changes |
| Guests.Guest.LayOutPattern | tools/hosttests/cmd/pvm_switcher_test/main.go:850-862 | The list for a pattern is in place and the control page points at the routine |
| Guests.RuleLaidOut | tools/hosttests/cmd/pvm_switcher_test/main.go:850-862 | A built guest with that list and control page is ready for the repeat-rule run |
| Guests.PatternsFault | tools/hosttests/cmd/pvm_switcher_test/main.go:853-858 | Whatever the pattern's letters, the computed addresses are canonical and never readable from user mode |
| Guests.KvaBaseAdmissible | tools/hosttests/cmd/pvm_switcher_test/guest.go:322-351 | The address the program uses is admissible |
| SmodRun.SmodReturns | tools/hosttests/cmd/pvm_switcher_test/guest.go:132-159 | In particular it is reached for a PVCS at a kernel address inside one data page |
| SmodRun.SmodReturnsExactly | tools/hosttests/cmd/pvm_switcher_test/guest.go:132-159 | From any register state, prior PVCS and root, for any CTRL_PVCS word whose fields each lie in one page and off the tables, the control page and the supervisor code: the SYSCALL at retuRIP is reached if and only if all three stores reach memory, and then the three fields are the control page's where the page tables put them, RSP is the user stack top and every other byte is unchanged |
| SmodRun.MemoryAt | tools/hosttests/cmd/pvm_switcher_test/guest.go:310-351 | A store within a page reaches memory if and only if it goes to the kernel's pages or, under the main root, to the user code or stack page |
| SmodRun.SmodRefused | tools/hosttests/cmd/pvm_switcher_test/guest.go:145-153 | Where the store of rip does not reach memory, whatever the word, the run stops at that store, in a page fault, a protection fault or a device write of the control page's rip, with memory unchanged |
| SmodRun.PgtblReturns | tools/hosttests/cmd/pvm_switcher_test/guest.go:163-206 | Whatever the two words hold, the variant first issues exactly two flag-0 LOAD_PGTBL hypercalls, of PGD1 and then PGD2, and then returns the same way, on PGD2 if that is one of the guest's tables |
| SmodRun.LandedIsReturnSet | tools/hosttests/cmd/pvm_switcher_test/guest.go:132-159 | The three stores the code makes are exactly a set return frame |
| SmodRun.KernelReach | tools/hosttests/cmd/pvm_switcher_test/guest.go:322-351 | Supervisor accesses to the kernel's pages go to their physical pages, under either root |
| PatternRun.UserReaches | tools/hosttests/cmd/pvm_switcher_test/guest.go:322-351 | In user mode the code and stack pages are memory, the report page is the device and everything else faults |
| PatternRun.PatternReads | tools/hosttests/cmd/pvm_switcher_test/guest.go:235-264 | While addresses are left, one entry uses up exactly the next one and ends in reading it |
| PatternRun.PatternReports | tools/hosttests/cmd/pvm_switcher_test/guest.go:235-264 | With the list used up an entry reports its length and changes no memory |
| PatternRun.ReportListed | tools/hosttests/cmd/pvm_switcher_test/guest.go:252-262 | The hand-computed jae lands on an instruction: the ninth of the routine |
| PatternRun.Round | tools/hosttests/cmd/pvm_switcher_test/guest.go:132-159 | A fault delivered to the supervisor code comes back to the routine's entry with one more address used up |
| PatternRun.FaultsFollowTheList | tools/hosttests/cmd/pvm_switcher_test/guest.go:235-264 | For any list, the faults are its addresses in order up to the first readable one; if there is none the run ends by reporting the list's length |
| PatternRun.RuleHolds | tools/hosttests/cmd/pvm_switcher_test/main.go:834-881 | All addresses fault in list order and the count is reported if and only if none is readable and all are canonical |
| BootPool.InvRun | tools/pvmtest/run.go:278-311 | Every schedule keeps the pool's invariant |
| BootPool.BoundedAndOnce | tools/pvmtest/run.go:278-311 | In every interleaving at most max(1, jobs) boots run, none runs or is recorded twice, and a slot only ever holds its own boot's result |
| BootPool.NoDeadlock | tools/pvmtest/run.go:278-311 | Until the pool returns some goroutine can step |
| BootPool.AlwaysReturns | tools/pvmtest/run.go:278-311 | Every schedule returns after exactly 10n + 2 steps and not before |
| BootPool.ReturnIsDetermined | tools/pvmtest/run.go:278-311 | The result depends only on the boots' results: the lowest-index error, or all statuses; every boot ran once, and exactly the successes of a run that is not dry are recorded |
| BootPool.OneJobRecordsInOrder | tools/pvmtest/run.go:278-311 | With one job the record order is the boot order |
| Alarm.InvRun | tools/hosttests/cmd/pvm_switcher_test/main.go:82-176 | Every interleaving keeps the invariant of run and alarm |
| Alarm.Accounts | tools/hosttests/cmd/pvm_switcher_test/main.go:135-176 | exits = reports + events + 1 if stopped; the outcome tells the handled exits; EINTR is an error only if this run's alarm fired |
| Alarm.HandleTells | tools/hosttests/cmd/pvm_switcher_test/main.go:146-170 | Handling one exit keeps the outcome an account of all exits so far |
| Alarm.StraysAreFree | tools/hosttests/cmd/pvm_switcher_test/main.go:135-176 | From any schedule that returned, one with no stray interruption returns with the same outcome after the same exits; unless the alarm ended the run it is the same schedule with three steps left out for each of them |
| Alarm.StraysNeverShow | tools/hosttests/cmd/pvm_switcher_test/main.go:135-176 | What a run can return does not depend on how many stray interruptions there can be |
| Alarm.QuietAfterCancel | tools/hosttests/cmd/pvm_switcher_test/main.go:100-133 | The goroutine cannot end before cancel, and nothing happens after it returns |
| Alarm.Rescued | tools/hosttests/cmd/pvm_switcher_test/main.go:100-176 | From every reachable state the two threads alone reach the return, with EINTR recorded when the vCPU was stuck |
| Alarm.LoopIsBounded | tools/hosttests/cmd/pvm_switcher_test/main.go:135-176 | The loop takes at most three steps for each report wanted and each stray interruption, and six more |
| Lines.LinesAreWhole | tools/l1agent/text.go:16-50 | The lines of a stream put together are the stream, and only the last can lack its newline |
| Lines.LinesOfWhole | tools/l1agent/text.go:16-50 | They are the only well-formed lines that are |
| Lines.BufReader.ReadSlice | tools/l1agent/text.go:20-24 | Gives the bytes up to a newline, a full buffer, or the rest |
| Lines.EachLine | tools/l1agent/text.go:19-50 | Delivers the lines of the stream, cut where the callback stops, whatever the buffer's size |
| Lines.PrefixStream | tools/l1agent/text.go:54-69 | Writes that sequence, cut at max, with the prefix before each line |
| Lines.PrefixedLines | tools/l1agent/text.go:54-69 | What it writes reads back as the same lines behind the prefix |
| Lines.LineCount | tools/l1agent/text.go:79-87 | A stream has a line for every newline and one more if it ends without |
| Lines.TailBytes | tools/l1agent/text.go:132-150 | The result is a suffix whose lines are the last n, for every n >= 0 |
| Lines.LastTraceLines | tools/l1agent/trace.go:266-285 | The ring buffer gives the last n lines that are no noise, in order |
| Decimals.NumKey | tools/l1agent/text.go:227-253 | The scanned key is the trimmed numeric prefix |
| Decimals.KeyValue | tools/l1agent/text.go:224-253 | The trimmed key denotes the number the line begins with |
| Decimals.MagnitudeOrder | tools/l1agent/text.go:255-277 | Comparing lengths and bytes of trimmed keys is comparing the numbers |
| Decimals.NumCompare | tools/l1agent/text.go:255-277 | The sign of the result is that of the difference of the two decimals, for any two strings |
| Decimals.DecValue | tools/l1agent/text.go:203-212 | Printing a number in decimal gives digits that denote it |
| Histograms.BeforeIsTotal | tools/l1agent/text.go:214-222 | The sort's comparator is a strict total order on lines |
| Histograms.OrderedUnique | tools/l1agent/text.go:214-222 | Two ordered lists of the same lines are the same list |
| Histograms.SortRN | tools/l1agent/text.go:214-222 | Sorts the array's lines in place: ordered, and the same lines |
| Histograms.CountKeys | tools/l1agent/trace.go:65-84 | Counts every matching line of the stream under its key |
| Histograms.HistogramAddsUp | tools/l1agent/trace.go:65-106 | Before it is cut, the counts sum to the number of matching lines |
| Histograms.HistogramUnique | tools/l1agent/text.go:202-222 | The sorted rows do not depend on the map's iteration order |
| Histograms.RowValue | tools/l1agent/text.go:202-212 | The sort reads a row's count off its head |
| Histograms.RowOrder | tools/l1agent/text.go:202-222 | Rows are ordered by count descending and then by bytes descending |
| Histograms.HistogramRows | tools/l1agent/trace.go:65-106 | The full histogram is the rows of all keys in that order |
| Histograms.Report | tools/l1agent/trace.go:65-106 | What comes out is the first rows of the one histogram of the stream, for any way to find a line's key |
| Exits.MatchIs | tools/l1agent/trace.go:42-51 | The match a backtracking engine finds for literals behind greedy stars is the one a scan from the line's end comes to, last literal first |
| Exits.LiteralIsNeeded | tools/l1agent/trace.go:68-70 | Skipping lines without the literal changes nothing |
| Exits.ExitKeyIs | tools/l1agent/trace.go:64-77 | A line of the kernel's form, whatever stands in front of it, is always counted, and under its reason, named by its number, if and only if the reason has no bar and not the pattern's own " reason " |
| Exits.BarIsCut | tools/l1agent/trace.go:72-74 | A reason of A, a bar and B is not its line's key |
| Exits.HypercallKeys | tools/l1agent/trace.go:19-41 | Two hypercalls share a key if and only if their numbers are equal, however padded |
| Exits.ExitsByReason | tools/l1agent/trace.go:64-84 | The first 18 rows of the one histogram of the stream's exits by that key |
| Words.FieldsJoin | initrd/internal/sysinit/sysinit.go:149-155 | Words joined by blanks split back into the words |
| Words.FieldsAppend | initrd/internal/sysinit/sysinit.go:149-155 | White space separates the words on its two sides |
| Cpio.Hex8Value | tools/pvmtest/build.go:576-579 | A number below 2^32 takes eight hexadecimal digits that say it |
| Cpio.Writer.HeaderLinks | tools/pvmtest/build.go:576-582 | Appends exactly one header and the name, padded to four bytes |
| Cpio.Writer.AddDir | tools/pvmtest/build.go:590 | Appends exactly the directory's entry and takes one inode number |
| Cpio.Writer.AddFile | tools/pvmtest/build.go:592-596 | Appends exactly the file's entry with its padded data |
| Cpio.Writer.AddLinks | tools/pvmtest/build.go:600-614 | Appends one entry a name, all of one inode, the data with the last |
| Cpio.Writer.Close | tools/pvmtest/build.go:616 | Appends the trailer |
| Cpio.Pack | tools/pvmtest/build.go:564-616 | Any sequence of calls and then close writes the image of its entries and the trailer |
| Cpio.ReadBack | tools/pvmtest/build.go:576-596 | The reader gets one entry back and stops right behind it, unless its name has a NUL |
| Cpio.HeadersAreAligned | tools/pvmtest/build.go:571-616 | Every header of a written archive, the trailer's included, starts at an absolute offset that is a multiple of four, and so does the archive's end |
| Cpio.ImageReads | tools/pvmtest/build.go:564-616 | An archive reads back as its entries if and only if no name has a NUL or is the trailer's |
| Cpio.InodeIsOwner | tools/pvmtest/build.go:600-603 | Two entries share an inode number exactly when one call wrote both |
| Cpio.LinksResolve | tools/pvmtest/build.go:598-614 | Resolving links by inode gives the names, modes and contents asked for |
| Cpio.ArchiveRoundTrip | tools/pvmtest/build.go:564-616 | Both together, for every sequence of calls |
| Harnesses.Harness.Run | initrd/internal/harness/harness.go:218-236 | Sorts, selects, counts and prints exactly the chosen cases in order, each between its two mark lines when the marks' device is open |
| Harnesses.Harness.RunOne | initrd/internal/harness/harness.go:238-280 | Prints one case's lines and counts it once |
| Harnesses.Harness.Report | initrd/internal/harness/harness.go:284-297 | Prints the summary, the failed names if any, and the result line |
| Harnesses.RunAll | initrd/internal/harness/harness.go:218-297 | A whole run's output is the lines of its cases and report |
| Harnesses.SortedCases | initrd/internal/harness/harness.go:219 | Cases come out by name, all of them, those of one name in the order added |
| Harnesses.ListSelects | initrd/internal/harness/harness.go:179-186 | A list of names selects exactly those, whatever the suite |
| Harnesses.SuitesNest | initrd/internal/harness/harness.go:193-216 | Each suite of the ranking takes in the one below, and none takes in a perf-only case |
| ResultLog.ParseLog | tools/pvmtest/parse.go:53-156 | The scan is the fold of its lines up to the first too long for the scanner: names, results, counts, metrics, marks, counters and complaints |
| ResultLog.ParseLine | tools/pvmtest/parse.go:60-153 | One line changes the outcome as specified, and the sets of failed names and of counter keys follow their lists |
| ResultLog.FoldNames | tools/pvmtest/parse.go:60-81 | The names in the outcome are those of the lines in line order, failed ones once each |
| ResultLog.FoldLedger | tools/pvmtest/parse.go:90-113 | The host failures of a log are those its lines give, added up in 64 bits; the module failed to load if a line says so; lines that are no results leave the other counts alone |
| ResultLog.PanicsExactly | tools/pvmtest/parse.go:108-110 | The parser panics if and only if the log has a wordless FAILCLOSED line |
| ResultLog.PanicsIs | tools/pvmtest/parse.go:108-110 | Such a line is the prefix followed by white space only |
| ResultLog.BarePrefixPanics | tools/pvmtest/parse.go:108-110 | The bare prefix is one |
| ResultLog.Unexpected | tools/pvmtest/parse.go:161-176 | Exactly the failed cases that are not allowed, by name or by a garbled start of an allowed name |
| ResultLog.TapNameIs | tools/pvmtest/parse.go:38 | A verdict line's name is recovered if and only if it is made of the pattern's characters |
| ResultProtocol.PassedExactly | initrd/internal/harness/harness.go:238-280 | Of what a run prints, the ok verdicts name the passed cases in order if and only if their names are of the pattern's characters and no loose line is an ok verdict |
| ResultProtocol.FailedExactly | initrd/internal/harness/harness.go:238-297 | For cases of any names: the names listed as failed are the failed cases, once each in order, if and only if loose lines, verdicts and summary list only names that are listed already or next to fail, and every failed name somewhere |
| ResultProtocol.GoodNamesInTurn | initrd/internal/harness/harness.go:265-293 | With names of the pattern's characters that is so if and only if the loose lines alone list names that are listed already or next to fail |
| ResultProtocol.ColonIsCut | tools/pvmtest/parse.go:39 | A failed case called a:b is listed as a, and not recovered |
| ResultProtocol.NamesRecovered | tools/pvmtest/parse.go:53-81 | For any log with nameless lines anywhere between the guest's, any names and any error texts, the host finds the passed names in order, and the failed ones once each, under exactly those conditions |
| ResultProtocol.QuietIsInTurn | tools/pvmtest/parse.go:66-81 | Loose lines that list no failed case are never out of turn |
| ResultLog.DistinctNames | tools/pvmtest/parse.go:70-81 | Distinct failed names are listed as they are |
| ResultProtocol.VerdictAgrees | tools/pvmtest/run.go:175-223 | With names of the pattern's characters, tag and suite that are words, as a command line's are, no allow-list and no failing check: the host's verdict is ok just when the guest's result line says ok, if and only if a case failed or none ran, or loose lines list no failed case and nothing said is a failed host test or load |
| ResultProtocol.NotesCanForge | initrd/internal/harness/harness.go:276-278 | A note that goes on with a verdict line breaks those conditions |
| Phases.FoldSays | tools/pvmtest/parse.go:117-150 | After any lines a mark's counter is the sum of all its prints modulo 2^64, a mark's name is the last one given, and the keys are listed once each in the order they came up |
| Phases.StatsPairs | tools/pvmtest/parse.go:185-202 | The phases of the marks that have counters at themselves and at the next, in rising order, each counter the wrapped difference |
| Phases.OpeningsUnique | tools/pvmtest/parse.go:186-192 | Their order does not depend on the map's |
| Phases.PhasesTell | tools/pvmtest/parse.go:53-202 | From log to phases: one at each mark that is named and printed at, by its last name, with what was printed after less what was printed before, over all prints, modulo 2^64 |
| Marks.MarkReads | tools/pvmtest/parse.go:117-124 | A mark line the harness prints is read as its number and name if even, and names nothing if odd |
| Marks.CaseMarks | initrd/internal/harness/harness.go:232-234 | A case's mark opens a phase of the case's name if and only if that does not end in /after |
| Marks.AfterIsCut | tools/pvmtest/parse.go:120 | The phase of a case x/after is called x |
| Cmdlines.CmdlineValue | tools/l1agent/params.go:37-51 | The loop gives what sed and the command substitution give |
| Cmdlines.WordsValue | tools/l1agent/params.go:30-51 | On a line of words the value is the one behind the last place of the key in the last word that has it |
| Cmdlines.ContainsJoin | tools/l1agent/params.go:34-36 | A key is in joined words exactly when it is in one of them |
| Params.L1Append | tools/pvmtest/boot.go:265-289 | The host's conditional appends give the specified words |
| Params.OptionsRead | tools/l1agent/params.go:56-74 | For any options of one line the agent reads, of each key, the last thing the options and L1 arguments say of it, up to a blank |
| Params.OptionsArriveExactly | tools/l1agent/params.go:30-74 | What went in comes out if and only if that is what was given for each key |
| Params.OptionsArrive | tools/l1agent/params.go:56-74 | Clean options all arrive: suite, vendor, CPUs, memory, module and guest arguments, and the timeouts of the L1 arguments, with defaults for what was not given |
| Params.KeyInAnArgument | tools/l1agent/params.go:34-36 | A guest argument that spells pvmtest.suite= sets the suite |
| GuestParams.GuestAppend | tools/l1agent/params.go:156-190 | The agent's string is the specified words, the extra arguments and the expectation |
| GuestParams.WordsArrive | tools/l1agent/text.go:279-286 | The extra arguments come through echo and tr if and only if they do not look like an option of echo |
| GuestParams.OneOptionIsLost | tools/l1agent/text.go:279-286 | The single argument -n does not come through |
| GuestParams.Cmdline | initrd/internal/sysinit/sysinit.go:143-157 | The map has for every key its last value on the line |
| GuestParams.GuestSees | tools/l1agent/params.go:156-190 | From the host's options to the guest's words: fixed ones, every argument in order unless echo takes them for its option, the agent's own |
| GuestParams.LastValueWins | initrd/internal/sysinit/sysinit.go:159-164 | The guest's Get of any key: pvm for pvmtest.expect under PVM, else the last value given, else the agent's fixed one, else the default |
| Quoting.SplitQuoted | tools/l1agent/params.go:385-411 | The scanner's words are those of the specification |
| Quoting.SplitInvertsQuoting | tools/l1agent/params.go:383-411 | Any words, empty ones too, come back from any quotes they are free of |
| Quoting.Fields | tools/pvmtest/spec.go:173-205 | The battery's splitter does what the specification says, or refuses |
| Quoting.FieldsInvertWriting | tools/pvmtest/spec.go:171-205 | Any mix of quoted and bare words comes back, with or without a comment behind |
| Quoting.RefusedExactly | tools/pvmtest/spec.go:197-199 | A line is refused exactly when a quote stays open before its end or comment |
| Kut.KutManifest | tools/pvmtest/kut.go:85-95 | Writes one tab-separated line a test |
| Kut.ParseKUTManifest | tools/l1agent/params.go:368-381 | Reads the lines that are tests |
| Kut.ManifestReads | tools/l1agent/params.go:367-381 | The agent reads every listed test in order, its arguments split as they are quoted, if and only if the format carries each of them |
| Kut.OneLineIsCarried | tools/pvmtest/kut.go:85-95 | It does when columns hold no tab or newline, the name starts with no # and the arguments are one line |
| Kut.CommentIsLost | tools/l1agent/params.go:371-373 | A test whose name starts with # is not carried |
| Kut.SelectKUT | tools/pvmtest/kut.go:98-119 | The listed tests in the list's order, or an error if and only if one has no test that can run |
| MacroText.SpreadReads | tools/hosttests/internal/pvm/para_test.go:195-221 | Tokens read back however blanks are spread, as long as no two words touch |
| MacroText.NumberReads | tools/hosttests/internal/pvm/para_test.go:295-296 | A number in decimal, octal or hexadecimal is one token, read as itself if it fits 64 bits and refused if not |
| MacroEval.EvalDefine | tools/hosttests/internal/pvm/para_test.go:199-227 | Terminates on every environment with the specified value or error |
| MacroEval.ExprParser.ParseExpr | tools/hosttests/internal/pvm/para_test.go:249-258 | The loop parses what the specification parses, from any position |
| MacroEval.ExprParser.ParseSum | tools/hosttests/internal/pvm/para_test.go:260-273 | The same for sums |
| MacroEval.ExprParser.ParsePrimary | tools/hosttests/internal/pvm/para_test.go:275-299 | The same for primaries, recursing into macros one level deeper |
| MacroEval.ChainsAreShort | tools/hosttests/internal/pvm/para_test.go:200-206 | A macro that evaluates heads no chain of mentions beyond the depth limit, and every name on the way is defined |
| MacroEval.CyclesFail | tools/hosttests/internal/pvm/para_test.go:200-202 | A macro whose mentions lead into a cycle is an error |
| MacroTrees.DefineOf | tools/hosttests/internal/pvm/para_test.go:249-299 | A macro of rank r evaluates, wherever r levels are left, to its tree's value modulo 2^64: + and - bind tighter than <<, all group left |
| MacroTrees.ShiftIsProduct | tools/hosttests/internal/pvm/para_test.go:256 | Shifting is multiplying by a power of two modulo 2^64, at every amount |
| MacroTrees.WrittenEvaluates | tools/hosttests/internal/pvm/para_test.go:199-299 | Trees written out with any blanks evaluate to what they mean |
| Boots.Variant | tools/pvmtest/spec.go:267-281 | A side's keys folded over the common ones, whatever order the maps are walked in |
| Boots.Expand | tools/pvmtest/run.go:61-112 | The nested loops give the specified list, with log names |
| Boots.BootAt | tools/pvmtest/run.go:76-100 | Where each repetition, vCPU count, side and vendor stands |
| Boots.PlaceOf | tools/pvmtest/run.go:76-100 | Every place is the place of one such boot |
| Boots.PlacesDiffer | tools/pvmtest/run.go:76-100 | Two boots have one place only if repetition, vCPU entry and position within it are the same |
| Boots.Balance | tools/pvmtest/run.go:79-94 | For each vCPU count the run positions of b exceed those of a by m*m a listing for odd repetitions and by 0 for even |
| Boots.LogNamesDiffer | tools/pvmtest/run.go:101-111 | With dash-free vendors, each once a side, distinct vCPU counts and at most one not positive, boots of one log name are the same boot |
| Boots.LogNamesDifferExactly | tools/pvmtest/run.go:101-111 | With dash-free vendors no two boots of an item write to one log if and only if vendors and vCPU counts are so |
| Boots.DashClashes | tools/pvmtest/run.go:101-111 | A vendor called pvm-cpu2 writes to the log of pvm at two vCPUs |
| Stats.Sorted | tools/pvmtest/report.go:32-33 | The sorted copy is ascending and holds the same samples |
| Stats.MedianUnordered | tools/pvmtest/report.go:31-42 | The median does not depend on the order of the runs |
| Stats.MedianSplits | tools/pvmtest/report.go:31-42 | A median above a bound has half the samples, rounded up, above it; and the same below |
| Stats.MinMax | tools/pvmtest/report.go:44-50 | The smallest and the largest sample |
| Stats.MedianInRange | tools/pvmtest/report.go:31-50 | The median lies between them |
| Stats.WriteMatrix | tools/pvmtest/report.go:55-87 | Each row has its key's median, range, count and unit; every key with samples has one row, by metric, vCPUs and vendor |
| Stats.KeyLessIsTotal | tools/pvmtest/report.go:70-79 | That order is a strict total order on keys |
| Stats.DisjointOrders | tools/pvmtest/report.go:119-124 | Ranges are disjoint exactly when every sample of one side exceeds every one of the other, and then the medians are strictly ordered |
| Stats.CompareMatrix | tools/pvmtest/compare.go:76-128 | Reports a regression if and only if some timing row of PVM meets the rule |
| Stats.RegressionMeans | tools/pvmtest/compare.go:113-124 | A regression means at least half of the new samples, rounded up, exceed every sample of the baseline |
| Stats.MatrixRegression | tools/pvmtest/compare.go:76-128 | The matrix's verdict on a key is that verdict on the key's own samples |
| Stats.NoRegressionInside | tools/pvmtest/compare.go:113-124 | New samples that one of the baseline's reaches are no regression |

## Left out

- Accessed and dirty bits, accesses that straddle pages, flags other than carry, and the instruction forms of the event handlers, the probe routine and the first user routine.
- Guests.Guest.BuildGuest: does not write the first user routine and the event handlers' code, whose instruction forms the machine does not have.
- SmodRun.SmodReturnsExactly: leaves open a CTRL_PVCS word with a field across a page boundary, and one that makes the code overwrite page tables, control page or supervisor code.
- KVM's ioctls, MSRs, SYSCALL and fault delivery: they are exits of the machine; what the hypervisor does with a LOAD_PGTBL hypercall or a delivered fault is a parameter of the theorems.
- `emit` running out of its page panics in the original; the builders are shown never to get there.
- What a boot, a KVM_RUN or a test case does is a parameter; so are clocks and durations, which appear as strings.
- Regular expressions are direct matchers on bytes. `ExitsByRip`'s key is a pair printed side by side, and the keys of the instruction and MSR histograms (`insnRe`, `msrRe`, the opcode table of `privName`) are flat; none of them is modelled.
- `sort.SliceStable`, `sort.Slice` and `sort.Float64s` are insertion sorts as functions; the sorts are otherwise specified by their results.
- `sedRangePlus`, `grepLines`, `awkFields` and the dmesg filters: single loops without a property across functions.
- Lines.LastTraceLines: requires n >= 1; with n == 0 the original indexes an empty ring.
- A log's metric values stay text, and whether one parses as a float is a parameter.
- Marks that a case writes itself (`T.Mark`) are lines it prints.
- Harnesses.RunAll: what a case prints itself is whole lines; a print without a newline would run into its verdict line.
- A case that timed out goes on printing later: such lines count as noise.
- ResultProtocol.VerdictAgrees: names are made of the pattern's characters, as all the harness's are, and lines in between are no results; the reason expression of `expect=refuse-load` is a parameter of the verdict, and the texts that go with a verdict are not modelled.
- Cpio: write errors of the underlying stream, device numbers and times, which the writer always leaves 0.
- `ParseBattery`, `parseUnittestsCfg` and environment expansion: readers of files whose grammar is a few flat cases.
- Quoting.Fields: works on bytes; the original walks runes, which changes nothing on valid UTF-8.
- The text of errors; an error is None.
- `stripComments`, `parseDefines` and `parseStruct` of the header test.
- `l1Opts`, qemu's other arguments and CPU pinning: plumbing around an external program.
- Stats.WriteMatrix: does not round a row to six digits on its way through a file. Samples are exact reals without NaN; ratios and spreads that are only printed are left out.
- ModulePath, TraceSetup, PerfKind, verdict and exit-name tables: flat tables.
