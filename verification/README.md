# Models of the benchmark, fuzz and conformance tooling

This project models six self-contained programs of the repository's tooling and proves
what they are for. `dafny verify dfyconfig.toml` checks everything.

**A WebAssembly emitter** (`bench/scripts/wasm-mod.js`). The LEB128 encoders are loops
proved against recursive byte functions; vectors, sections, code entries, `forLoop` and
the four module builders are the source's own array expressions. Beside them stand a
decoder, a validator and an interpreter for the fragment of WebAssembly 1.0 that the
emitter uses: i32 arithmetic modulo 2^32, signed comparison, locals, structured control,
calls, byte loads, host calls and traps. The interpreter's fuel is spent only on loop
back edges and calls, so a fuel bound is an exact trip count. The main results go from
bytes to results: what each builder emits decodes, validates, and computes its function.

- `Leb128`: the encoders and decoders.
- `WasmSyntax`, `WasmEmit`, `WasmDecode`: the instruction tree, the emitter's helpers, the
  decoder and the round trip between them.
- `WasmExec`, `WasmValid`: the interpreter, the validator, and type soundness.
- `WasmForLoop`, `WasmHalts`: the compiled loop against the source-level `for`, and when it ends.
- `WasmCompute`, `WasmMemory`, `WasmBig`, `WasmWasi`: the four modules.

**The JSON edit oracle** (`fuzz/fuzz_targets/json_edit.rs`). `JsonValue` has values and
UTF-16; `JsonBuild` the two-stack event builder as a class, its specification, and the
grammar of event runs; `JsonPath` the `pick` and `apply` functions with the laws of set
and remove; `JsonDocument` what an edit of the value means for the document; `JsonPick`
which edits the input bytes can choose; `JsonLayout` the layout of a compact text. `None` stands for a Rust panic, so
"never panics" is "always `Some`".

**The closed-loop broadcast benchmark** (`bench/websocket-chat/`). `Chat` has both
programs' handlers as methods of one class over one first-in first-out queue per client
and direction, and proves its laws over every interleaving of opens, accepts, server
receipts and deliveries. A message that arrives before the server's handler is installed
waits. Deliveries to a client that is not accepted yet are counted as missed, so the
conservation law holds on every run, and `MissedNothing` says when none is.

**The PDF writer** (`bench/pdf/gen.py`). `Pdf` has the object, cross-reference and trailer
writer and a reader that works from the end of the file; `PdfDocument` the report's
objects and a reader that walks catalog, page tree, pages and streams; `PdfContent` the
text of a page and its checksum. Compressed streams are arbitrary bytes. Standard:
ISO 32000-1:2008, sections 7.5.4 and 7.5.5.

**The parallel test runner** (`wpt/dom-run.js`). `Pool` has the shared-counter worker pool
under every schedule; `Report` the verdict on each child and the totals; `ReportLaws` what
the report says, told from what happened to each file; `Guard` the idle-guard timer over a
discrete clock.

`Common` and `Decimal` hold options, bytes, splitting and decimal numerals.

## Model

| member | source | states |
|---|---|---|
| Leb128.Uleb | bench/scripts/wasm-mod.js:10-19 | The loop, given any integer, writes the unsigned encoding of its value modulo 2^32 (the loop shifts with `>>>`) |
| Leb128.Sleb | bench/scripts/wasm-mod.js:21-32 | The loop writes the signed encoding of its argument as an i32 and stops on the source's two sign conditions |
| Leb128.DecodeUInverts | bench/scripts/wasm-mod.js:10-19 | For every width N and n < 2^N, decoding the encoding followed by any tail gives n and exactly that tail |
| Leb128.DecodeSInverts | bench/scripts/wasm-mod.js:21-32 | The same for signed numbers of every width |
| Leb128.UlebShortest | bench/scripts/wasm-mod.js:10-19 | Any byte string that decodes to v is at least as long as the emitted one, and as long only if it is that one |
| Leb128.SlebShortest | bench/scripts/wasm-mod.js:21-32 | The same for signed numbers |
| Leb128.AtMostFiveBytes | bench/scripts/wasm-mod.js:10-32 | Both encodings of any number have one to five bytes |
| Leb128.UlebPrefixFree | bench/scripts/wasm-mod.js:10-19 | Two encodings with tails that make the same bytes have the same value and the same tail |
| Leb128.SlebPrefixFree | bench/scripts/wasm-mod.js:21-32 | The same for signed numbers |
| WasmDecode.InstrsRoundTrip | bench/scripts/wasm-mod.js:45-68 | Decoding a printed instruction list up to its `end` gives that list, at any nesting, whatever bytes the immediates hold (0x0b included) and whatever follows |
| WasmDecode.ModuleRoundTrip | bench/scripts/wasm-mod.js:34-48 | Any module put together from the section, vector, string, type and code helpers, with increasing section ids, decodes to the same sections and leaves no byte |
| WasmExec.ExecAppend | bench/scripts/wasm-mod.js:40-48 | Running two instruction lists in a row is running their concatenation, branches and traps included |
| WasmExec.SeqFrame | bench/scripts/wasm-mod.js:58-68 | Code that runs on its own operand stack runs the same above any other operands and leaves them alone |
| WasmExec.SeqKeeps | bench/scripts/wasm-mod.js:58-68 | A run changes no local outside those the code writes |
| WasmExec.SeqMore | bench/scripts/wasm-mod.js:40-68 | Fuel only decides whether a run is finished: an outcome reached with some fuel is reached with any more |
| WasmExec.OneOutcome | bench/scripts/wasm-mod.js:40-68 | Code has at most one outcome from a state, at whatever fuel it is reached |
| WasmValid.InvokeSound | bench/scripts/wasm-mod.js:77-180 | Type soundness: in a valid module a call on arguments of the declared types never gets stuck, whatever the host answers; it returns the declared results |
| WasmValid.SeqWeaken | bench/scripts/wasm-mod.js:58-68 | Code that validates under some labels validates under more of them, so a body may be wrapped in the loop's block |
| WasmForLoop.ForLoopPrints | bench/scripts/wasm-mod.js:58-68 | On the bytes of any bound and body, `forLoop` emits the bytes of a structured block and loop with those parts |
| WasmForLoop.ForLoopCorrect | bench/scripts/wasm-mod.js:55-68 | Compiler correctness: the emitted block and loop has the outcome of `for (i = 0; i < bound; i++) body`, with the bound evaluated again each turn, at every fuel, for any well-formed bound and body; these may trap, call the host, loop and branch within themselves |
| WasmForLoop.ForLoopCounts | bench/scripts/wasm-mod.js:55-68 | When the bound always pushes B and the body leaves the counter alone, that loop has at every fuel the outcome of running the body for the counter at 0, 1, 2, … below max(0, B) and no further |
| WasmForLoop.CountedEnds | bench/scripts/wasm-mod.js:55-68 | Such a loop, when it ends normally, has gone round max(0, B) times and leaves the counter there, which never wraps around |
| WasmHalts.ForLoopHaltsIff | bench/scripts/wasm-mod.js:55-68 | Such a loop ends if and only if each turn of the body that it reaches ends |
| WasmHalts.ForLoopEnds | bench/scripts/wasm-mod.js:55-68 | Total correctness: if the body ends within some fuel in every state a turn may start from, the emitted loop ends within max(0, B) more, in the same way at any larger fuel, with the counter at max(0, B) and the stack as before unless the body traps; the measure is B - i |
| WasmForLoop.ForLoopValid | bench/scripts/wasm-mod.js:58-68 | The emitted loop has stack type [] to [] whenever its body has and its bound pushes one i32 |
| WasmForLoop.ForLoopToLocal | bench/scripts/wasm-mod.js:77-122 | The counted form for a bound that reads a local which the body does not write |
| WasmForLoop.ForLoopToConst | bench/scripts/wasm-mod.js:160-163 | The counted form for a constant bound |
| WasmCompute.Decodes | bench/scripts/wasm-mod.js:77-97 | The bytes of `computeModule` decode to the intended types, functions, memory, exports, locals and instruction trees |
| WasmCompute.Validates | bench/scripts/wasm-mod.js:77-97 | That module is valid |
| WasmCompute.ClosedForm | bench/scripts/wasm-mod.js:79-84 | Six times the sum of squares below n is (n-1) n (2n-1) |
| WasmCompute.ComputeModuleCorrect | bench/scripts/wasm-mod.js:72-97 | From bytes to results: `add` gives a + b and `sum` the sum of i * i below n, as (n-1) n (2n-1) / 6, modulo 2^32, for every i32, without a trap, in exactly max(0, n) turns; one page of memory is exported |
| WasmMemory.ValidIff | bench/scripts/wasm-mod.js:103-122 | The emitted memory module is valid exactly when the page count is at most 65536 |
| WasmMemory.MemoryModuleCorrect | bench/scripts/wasm-mod.js:99-122 | From bytes to results: the module exports a memory of the given pages, and `sum8` gives the sum of the window's bytes modulo 2^32 and leaves memory unchanged; it traps exactly when some byte of the window is outside memory, on reaching the first |
| WasmMemory.InBounds | bench/scripts/wasm-mod.js:99-122 | A window inside memory never traps, nor does any window of a full 4 GiB memory |
| WasmBig.BuildBigModule | bench/scripts/wasm-mod.js:129-147 | The nested loops write the specified module for any counts and salt |
| WasmBig.BuildBody | bench/scripts/wasm-mod.js:133-136 | The inner loop writes one function's chain |
| WasmBig.FoldIsAffine | bench/scripts/wasm-mod.js:133-136 | Folding x to (x + k+c+1) * ((c mod 7) + 2) over the chain is an affine map of x |
| WasmBig.BigModuleCorrect | bench/scripts/wasm-mod.js:124-147 | From bytes to results: every module of the builder, up to 2^32 bytes, decodes, validates and has `funcs` functions, and function f computes that affine map modulo 2^32 |
| WasmBig.SaltsDiffer | bench/scripts/wasm-mod.js:124-147 | Two salts give the same bytes if and only if they are congruent modulo 2^32 or there is no constant to shift |
| WasmWasi.WasiModuleCorrect | bench/scripts/wasm-mod.js:149-180 | From bytes to the trace: `_start`, function 2 after the imports `random_get` and `clock_time_get`, makes exactly max(0, n) pairs random_get(0, 16), clock_time_get(1, 0, 32) in order, for every count and whatever the host answers; its body is empty if and only if the count is zero |
| JsonValue.EncodeDecoded | fuzz/fuzz_targets/json_edit.rs:136-140 | A key that decodes from UTF-16 encodes back to the same units, so a picked key is found again |
| JsonValue.SurrogatePair | fuzz/fuzz_targets/json_edit.rs:32-37 | A character is one unit, or two surrogates with ten bits each past the first plane |
| JsonBuild.Build.PutValue | fuzz/fuzz_targets/json_edit.rs:40-53 | `put` on the object's fields has exactly the effect of the specification, and fails exactly where the source panics |
| JsonBuild.Build.FindSlot | fuzz/fuzz_targets/json_edit.rs:45-48 | The search finds the first member with the key, or none |
| JsonBuild.Build.Accept | fuzz/fuzz_targets/json_edit.rs:56-90 | Each sink method has exactly the effect of the specification's step |
| JsonBuild.NumberKept | fuzz/fuzz_targets/json_edit.rs:64-66 | A number keeps its bits unless they lie past those of infinity, but for the sign; then they are those of `f64::NAN` |
| JsonBuild.TextKept | fuzz/fuzz_targets/json_edit.rs:32-37 | A string event of either spelling reads as the string it was spelled with |
| JsonBuild.KeyKept | fuzz/fuzz_targets/json_edit.rs:32-37 | And so does the key of a member, with its value |
| JsonBuild.RunSimulates | fuzz/fuzz_targets/json_edit.rs:39-90 | On every prefix of every grammatical event run the builder does not panic: one stack entry per open container, holding the meaning of what was read, and one key per member that waits for its value |
| JsonBuild.RunUnique | fuzz/fuzz_targets/json_edit.rs:39-90 | Every object under construction, at every point of every run, has unique keys at all depths |
| JsonBuild.GrammarIsDocuments | fuzz/fuzz_targets/json_edit.rs:55-90 | The grammar accepts exactly the event runs of documents |
| JsonBuild.BuildsMeaning | fuzz/fuzz_targets/json_edit.rs:39-99 | On the events of any document both stacks end empty and the root is the document's meaning |
| JsonBuild.MembersSpec | fuzz/fuzz_targets/json_edit.rs:13-14 | In that meaning a repeated key keeps its first place and takes its last value |
| JsonBuild.BuildRoundTrip | fuzz/fuzz_targets/json_edit.rs:13-90 | Building a value's own events returns the value if and only if its objects have unique keys and its NaNs, told by their bits, are all `f64::NAN` |
| JsonPath.PickLoop | fuzz/fuzz_targets/json_edit.rs:124-156 | The walk collects the specified path, for any value and choices |
| JsonPath.ApplyLoop | fuzz/fuzz_targets/json_edit.rs:158-196 | The walk over the parents and the edit of the last container give the specified value, and fail exactly where the source panics |
| JsonPath.ApplyDefined | fuzz/fuzz_targets/json_edit.rs:158-196 | `apply` reaches no `unwrap`, `expect` or `unreachable!` if and only if each parent exists, the last step is of its container's kind, and a removal has a non-empty path |
| JsonPath.PickFits | fuzz/fuzz_targets/json_edit.rs:124-156 | On a value with unique keys every picked path is such a path, whatever the choices |
| JsonPick.DrawnIff | fuzz/fuzz_targets/json_edit.rs:130-136 | Member j of n can be drawn by some byte if and only if j is below 256 and no multiple of four, or n is no multiple of four and j + n is below 256 |
| JsonPick.DrawnSmall | fuzz/fuzz_targets/json_edit.rs:130-136 | In an object of up to 128 members, exactly the multiples of four are out of reach, and only when its size is one, too |
| JsonPick.PickReaches | fuzz/fuzz_targets/json_edit.rs:124-156 | Some choices pick a path if and only if each of its steps can be drawn: a member by key, any index below 256, and at the end a new key or the index past the end |
| JsonPick.NewKeyTells | fuzz/fuzz_targets/json_edit.rs:139-142 | A new key is "new" and the byte that chose it, so different bytes give different keys |
| JsonPick.EditBits | fuzz/fuzz_targets/json_edit.rs:199-223 | The bits of the operation byte: four count the choices, as far as the input reaches, the six above the lowest two choose the value, and one asks for a removal, which an empty path refuses |
| JsonPick.EveryEdit | fuzz/fuzz_targets/json_edit.rs:198-223 | Every path that can be picked in up to fifteen choices can be removed, and set to any of the five values but one, before any text |
| JsonPick.ValuesShown | fuzz/fuzz_targets/json_edit.rs:101-111 | Each text the fuzzer sets is the compact text of the value beside it |
| JsonPath.PickNeedsUnique | fuzz/fuzz_targets/json_edit.rs:124-196 | The hypothesis of `PickFits` is needed: on a value with the key "a" twice, which the builder never makes, the second member is picked by position, `apply` finds the first, and panics |
| JsonPath.GetAfterSet | fuzz/fuzz_targets/json_edit.rs:158-196 | Reading back a set gives the new value if and only if the last index is at most one past the end, at any depth |
| JsonPath.SetAfterSet | fuzz/fuzz_targets/json_edit.rs:158-196 | A second set hides the first |
| JsonPath.RemoveAfterSet | fuzz/fuzz_targets/json_edit.rs:158-196 | Setting an absent key or the append index and removing it again restores the value |
| JsonPath.GetAfterRemove | fuzz/fuzz_targets/json_edit.rs:158-196 | After a removal the key is absent and an index reads what followed it |
| JsonPath.ApplyUnique | fuzz/fuzz_targets/json_edit.rs:158-196 | Edits keep unique keys |
| JsonPath.EditFrame | fuzz/fuzz_targets/json_edit.rs:158-196 | Every path that diverges from the edited one reads the same afterwards, moved down by one if it passes through the same array after a removed element |
| JsonDocument.EditMeansEdit | fuzz/fuzz_targets/json_edit.rs:158-196 | An edit of a document's value is the value of the edited document, on every path and at any depth: a new member comes last, a repeated key keeps its first place, and one is possible exactly when the other is |
| JsonDocument.RemoveKeepsOrder | fuzz/fuzz_targets/json_edit.rs:184-186 | A removal leaves all other members, in their old order |
| JsonPath.OracleTotal | fuzz/fuzz_targets/json_edit.rs:198-225 | For every grammatical document and all input bytes the target computes its wanted value without a panic; it has unique keys, and a set value is there |
| JsonDocument.WantedIsRead | fuzz/fuzz_targets/json_edit.rs:198-225 | For every document and all input bytes, the value the target wants is what the builder makes of the edited document's events, order included |
| JsonLayout.LayoutAddsSpace | fuzz/fuzz_targets/json_edit.rs:112-122 | Laying out with a blank indent changes nothing but white space |
| JsonLayout.LayoutLines | fuzz/fuzz_targets/json_edit.rs:112-122 | A laid out text has its bracket, each piece behind the indent and the closing bracket on lines of their own, in order |
| JsonLayout.NotLaidOut | fuzz/fuzz_targets/json_edit.rs:114-116 | Without an indent, and for a text that is short or not bracketed, the text is left as it is |
| Chat.TagIdentifies | bench/websocket-chat/client.js:64-74 | Client i's message starts with client j's tag if and only if i = j |
| Chat.Room.StartAll | bench/websocket-chat/client.js:34-39 | The loop sends each client's first message, once each |
| Chat.Room.OnOpen | bench/websocket-chat/client.js:76-78 | The handler starts the room at exactly the last open, and keeps the invariant of all runs |
| Chat.Room.OnMessage | bench/websocket-chat/client.js:67-75 | The handler counts the delivery, sends again only on its own tag, and keeps the invariant |
| Chat.Room.OnAccept | bench/websocket-chat/server-esrun.js:10-12 | The accept loop adds one client, changes nothing else, and keeps the invariant |
| Chat.Room.OnServerMessage | bench/websocket-chat/server-esrun.js:12 | The handler takes one message, appends it to the queue of each accepted client, and keeps the invariant |
| Chat.RunInv | bench/websocket-chat/client.js:34-78 | The invariant behind the laws below holds after every run, whatever the interleaving |
| Chat.OneOutstanding | bench/websocket-chat/client.js:1-8 | From the start on each client has exactly one own message under way, over its outgoing and incoming queue, and the room has C |
| Chat.DeliveriesConserved | bench/websocket-chat/client.js:34-75 | received + queued deliveries + C * messages queued to the server + missed = C * sent; a client's sends are one plus its own echoes |
| Chat.NeverCatchesUp | bench/websocket-chat/client.js:10-11 | Once started, received stays below C * sent by at least C; with none missed, they are equal exactly when all queues are empty |
| Chat.MissedNothing | bench/websocket-chat/server-esrun.js:10-13 | No delivery is missed if and only if every client was accepted before each broadcast |
| Chat.SameSequence | bench/websocket-chat/server-esrun.js:12 | After every run any two clients have handled the broadcasts in the same order, from the later one's joining on |
| Chat.ComesBack | bench/websocket-chat/client.js:67-75 | No client is ever stuck: from every state after the start its own events alone bring its message back, and it sends again |
| Pdf.Write | bench/pdf/gen.py:43-52 | The loops write the specified file and note each object's true offset |
| Pdf.AppendEntries | bench/pdf/gen.py:50-51 | The loop writes one entry per offset |
| Pdf.PaddedEntry | bench/pdf/gen.py:50-51 | A padded offset has ten digits if and only if it is below 10^10; the entry then has 20 bytes and reads back |
| Pdf.LocateExact | bench/pdf/gen.py:43-52 | The table gives object k's offset if and only if that offset is below 10^10, for any bodies |
| Pdf.RandomAccess | bench/pdf/gen.py:43-52 | From `startxref` at the end, through the k-th entry, a reader lands on `k 0 obj`, body k and `endobj` |
| Pdf.ZeroIsFree | bench/pdf/gen.py:49 | Entry 0 names no object |
| Pdf.NoneBeyond | bench/pdf/gen.py:49 | Numbers beyond the last object are refused |
| Pdf.FileHeader | bench/pdf/gen.py:43 | Every file starts with the version and a comment of four bytes that are not text |
| PdfDocument.Report | bench/pdf/gen.py:28-52 | The loops build the specified objects for any streams and write them |
| PdfDocument.DocumentAt | bench/pdf/gen.py:30-42 | Object 4 + 2p is page p and object 5 + 2p its stream, and there is nothing else after the first three |
| PdfDocument.DocumentRoundTrip | bench/pdf/gen.py:28-52 | A reader that checks the header and the head of the free list, follows the trailer, the catalog, the font, /Kids, /Count, each /Parent and /Contents and each /Length gets back every page's stream byte for byte, for any page count and streams, if and only if the last object starts below 10^10 |
| PdfContent.InvoiceChecksum | bench/pdf/gen.py:7-8 | The text of any page with any number of lines has "invoice" once per line, at any position of the text |
| PdfContent.TextLines | bench/pdf/gen.py:20-25 | The text has its first line, the asked number of lines in order, and its last |
| PdfContent.LineTells | bench/pdf/gen.py:23 | Each line says its number and its page's, counted from one |
| PdfContent.WordsTell | bench/pdf/gen.py:22 | The words of a line are eight, word k being the one at page + line + k in the list, round and round |
| PdfContent.Content | bench/pdf/gen.py:19-25 | The loop writes that text |
| Pool.RunnerPool.Loop | wpt/dom-run.js:250-251 | The loop's test and claim: the shared counter gives the next index to one worker |
| Pool.RunnerPool.Begin | wpt/dom-run.js:249-251 | A worker starts by claiming a file or finding none left, and the invariant of all schedules is kept |
| Pool.RunnerPool.Resolve | wpt/dom-run.js:250-254 | When a run resolves its slot is written, its worker goes on at once, and the invariant is kept |
| Pool.RunnerPool.Collect | wpt/dom-run.js:249-257 | Once the pool has resolved, the slots hold what running the files one after another gives |
| Pool.PoolInv | wpt/dom-run.js:247-255 | After every schedule exactly the indices below `next` are claimed, each by one owner that runs it or has left that file's own outcome, and no worker stops while files remain |
| Pool.InFlight | wpt/dom-run.js:247-255 | At most max(1, jobs) runs are under way, no file twice, and runs under way plus settled slots make `next` |
| Pool.ResolvesOnTime | wpt/dom-run.js:249-255 | Until the pool resolves some worker can go on, and it resolves after exactly one step per file and one per worker |
| Pool.RefinesSequential | wpt/dom-run.js:245-255 | Under every schedule and number of jobs a resolved pool holds what running the files one after another gives |
| Report.TallyTests | wpt/dom-run.js:273-277 | The inner loop counts passes and failures, lists the failures in order and names each status |
| Report.TallyFile | wpt/dom-run.js:256-278 | One turn of the accounting loop: each of the refused, failed, partial and completed branches adds the specified counts, skip, failures and entry |
| Report.Tally | wpt/dom-run.js:256-278 | The accounting loop writes the specified report |
| Report.BooksBalance | wpt/dom-run.js:242-278 | runnable + skipped stays constant and skipped is the length of its list; each runnable file is completed, timed out or errored, and only one of these; passed + failed are the subtests that count; the failure list has one entry for each failure |
| ReportLaws.TotalsTell | wpt/dom-run.js:174-278 | From what happened to the totals: a killed, silent or ended page counts as a timeout, one not put together or with a bad exit or status as errored, a refused one as skipped; subtests of completed and ended pages pass exactly with status 0 |
| ReportLaws.FailuresTell | wpt/dom-run.js:174-278 | The failure list holds what happened and nothing else: each failed subtest that counts, and each file that was killed, fell silent or went wrong, with its kind |
| ReportLaws.GatherAppend | wpt/dom-run.js:245-278 | The lists follow the order of the paths |
| ReportLaws.TestFailuresAppend | wpt/dom-run.js:273-277 | And within a file the order of its subtests |
| ReportLaws.SkipsTell | wpt/dom-run.js:258-262 | The skips added are the refused pages, with what the parser said |
| ReportLaws.StatusNamesDiffer | wpt/dom-run.js:9-10 | Only status 0 is named PASS, and no two statuses share a name, numbered ones included |
| Report.Partition | wpt/dom-run.js:237-242 | Skipped and runnable files make up the selected ones |
| ReportLaws.SelectionTells | wpt/dom-run.js:237-241 | A selected file runs if and only if there is no reason against it, and is skipped for that reason otherwise |
| ReportLaws.RunnableInOrder | wpt/dom-run.js:241 | The files that run keep the order of the selection |
| ReportLaws.ExcludedInOrder | wpt/dom-run.js:237-240 | And so do the skipped ones |
| Report.ScheduleIndependent | wpt/dom-run.js:174-278 | Whatever the schedule and the jobs, the outcomes reported on are those of the files alone, pages that could not be assembled included, and files = runnable + skipped |
| Report.ResultOf | wpt/dom-run.js:265-275 | With distinct paths each file not refused has its own entry, and a refused one has none |
| ReportLaws.ResultsTell | wpt/dom-run.js:264-275 | In that entry the harness is OK if and only if the page reported status 0, and the subtests are those that count |
| ReportLaws.ResultsLast | wpt/dom-run.js:273-275 | A subtest has there the name of the last status reported for it |
| Report.CleanIff | wpt/dom-run.js:256-278 | The failure list is empty if and only if every file not refused completed or was partial and all its subtests passed |
| Guard.PageGuard.ArmGuard | wpt/dom-run.js:152-160 | Arming replaces the live timer by one that remembers this moment, unless the page is done |
| Guard.PageGuard.OnScriptsRun | wpt/dom-run.js:171 | The page's scripts have run: the guard is armed, and the invariant of all runs is kept |
| Guard.PageGuard.OnResult | wpt/dom-run.js:161 | A result re-arms the guard only once it has been armed, and the invariant is kept |
| Guard.PageGuard.OnCompletion | wpt/dom-run.js:162 | Completion clears the timer for good, and the invariant is kept |
| Guard.PageGuard.RunTimer | wpt/dom-run.js:156-159 | A due timer that runs more than half a grace period late re-arms; otherwise it ends the page, which is then idle for at least `grace` and not done; the invariant is kept |
| Guard.OneTimer | wpt/dom-run.js:150-162 | At any time at most one timer lives, and none after completion |
| Guard.EndsOnlyIdle | wpt/dom-run.js:150-162 | The page is ended only before completion, after at least `grace` without a result or arming, by a callback at most half a grace period late |
| Guard.NeverUnwatched | wpt/dom-run.js:150-162 | An armed page that is not done has a live timer, or was ended since its last progress |
| Guard.SteadyNeverEnds | wpt/dom-run.js:140-149 | A page whose results come less than `grace` apart until it completes is never cut off |
| Guard.UnarmedNeverEnds | wpt/dom-run.js:145-149 | A page that is not armed yet is never ended |
| Guard.IdleIsEnded | wpt/dom-run.js:156-159 | A live timer that runs on time ends the page |
| Guard.LateThenEnded | wpt/dom-run.js:153-159 | A callback that runs late gives the page one fresh grace period from that moment, and the next one ends it if it stays idle |

## Left out

- The engine beyond the emitted fragment: floats, tables, globals, 64-bit arithmetic, other loads and stores, memory growth, and host calls that do not return. The validator covers the fragment's instructions with block type 0x40 only.
- Instantiating a module: the interpreter is given the memory, and the module's page count enters through validity alone.
- `loadWASI`: it resolves a runtime's module.
- JavaScript numbers that are not integers as arguments of the builders; integers are taken modulo 2^32 as the bit operators take them.
- WasmBig.SaltsDiffer: takes integers as exact, so it speaks of the source where `salt + funcs + chain` stays a safe integer, below 2^53 in size; beyond it JavaScript's sums round and the bytes may differ from the model's. The same holds of WasmBig.BigModuleCorrect.
- WasmBig.BigModuleCorrect: speaks of modules below 2^32 bytes, since a section's length cannot be written otherwise.
- `parse`, `edit` and `plan`: foreign libraries. The builder's input is any grammatical event run, and the comparison of the edited text with the wanted value is not part of the model.
- JsonPath.ApplyLoop: walks with the list of values it passed and writes the result back along it, where the source keeps one `&mut` reference; the update in place is not captured.
- JsonLayout.LayoutAddsSpace: takes the text as ASCII, and says nothing of texts with a comma or a bracket inside a string, which the fuzzer never lays out.
- Sockets, handshakes, errors, closing and `finish()`: runs are taken up to it, so `server-esrun.js` never deletes a client.
- Chat.ComesBack: is stated of the invariant's states, among which `Chat.RunInv` puts all that are reached.
- ReportLaws.FailuresTell: gives the message of a file's failure only where the page was not put together, and the exit code at its front.
- zlib, file writing and arguments of `gen.py`: streams are arbitrary bytes.
- PdfDocument.DocumentRoundTrip: its reader accepts the writer's spacing and key order, not every PDF.
- Assembling a page's script, spawning children, `--keep`, `--trace` and the expectations file of `dom-run.js`; a `run` that rejects otherwise than while it assembles the page; `patch`, `metaScripts` and `scriptPath`.
- Report.JudgeChild: has the child's two output streams as one trimmed text.
- Pool.RefinesSequential: takes a file's outcome to be a function of the file.
- Fractional or missing `--jobs` and `--grace` values; timers and `Date.now()` share one clock of whole milliseconds.
