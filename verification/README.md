# analyze tracer core, modelled in Dafny

`analyze` records what a build does. The build runs with `libpreload.so` preloaded: this library wraps
`exit`, `_exit`, `_Exit`, the `exec*` family and `access`. Each wrapper appends one JSON record to a per-process
report. The library's destructor writes the report as a single JSON document, `log_<pid>[_<tid>].json`, into an
output directory. `exit` runs that destructor; `_exit`, `_Exit` and a successful exec do not, and the in-memory
report is lost with them.
The Rust side collects those documents into a `Build`. It admits them only when `Build::verify_integrity` accepts
the set of (pid, ppid) pairs.

This project models that core as pure Dafny functions over strings and sequences. It also includes one small
class: the array-backed report buffer. The modules are:

- `Base`: `Option` and `Result` (both usable with `:-`), bytes, and the ASCII and `isprint` character classes.
- `Decimal`: `%d`/`%ld`/`%zu` formatting, with a reader that inverts it.
- `Scan`: readers for `literal + value + rest` record fields. They let every record field and every string encoder be stated with its inverse.
- `JsonUtil`: the encoders of `util.c`:
  - `string_to_json_value`;
  - `json_value_array_to_json_list`;
  - `string_array_to_json_list`;
  - `bytes_to_hex_string`.

  Each is a function. `string_to_json_value` and `json_value_array_to_json_list` also come as the C two-pass
  buffer algorithm (measure, allocate, fill): `StringToJsonValueBuffer` and `JsonValueArrayToJsonListBuffer`. Each
  method is proved equal to its function, and so to the precomputed length. `bytes_to_hex_string` comes as its
  single `sprintf` loop, `BytesToHexStringBuffer`. `string_array_to_json_list` is a function only.
- `Decoders`: a JSON string-literal decoder following section 7 of RFC 8259, a decoder for lists of such
  literals, and hex decoding. They are the independent partners of the encoders, and the round trips are proved
  against them.
- `LinkName`: `linkname_of`, `read_linkname_of` and `call_readlink`. `readlink` is an oracle: a map from
  `/proc/self/fd/<n>` paths to link targets.
- `FileReport`, from `file_report.c`:
  - the abstract report, a doubling pointer array, with its invariant;
  - the log file name;
  - the teardown document;
  - the class `ReportBuffer`, which works on a real array and writes the NULL sentinel at teardown.
- `Events`, `Exec`, `Access`: the wrappers of `exec.c` and `access.c`, in three parts:
  - The real libc functions are function-typed parameters.
  - The clock reading is a parameter.
  - A wrapper returns a `Step`: how the call ends for its caller, and the report after it.
- `Integrity`: the decision made by `Build::verify_integrity`, which is the same in both Rust crates. It is
  proved equal to a reference predicate: pids pairwise distinct, and at most one process whose parent is not
  recorded.
- `ExitStatuses`: `std::process::ExitStatus`, built from its `code()`, so that a failing status never carries
  code 0.
- `AnalyzeBuild`, `TrackBuild`: `Build::new` and the decision taken on the build's exit status, each for its
  crate. `AnalyzeBuild` also has `Event::from`'s timestamp arithmetic; the `track` crate has no `Event::from`.
- `UtilExamples`: the expected outputs of the C unit tests.

Where the two sources of intent differed, the model follows the code:

- `verify_integrity`'s doc comment promises a single connected component. The code only counts parentless
  processes, and that count is what is modelled. `Integrity.DetachedCyclePasses` and
  `TrackBuild.DetachedCycleAccepted` show a recording that is accepted although it is not connected.
- `file_report_create` has no `return` statement, and it allocates one byte too few for the output path. The
  model uses the intended initial state: one slot and no entries.

## Model

| member | source | states |
|---|---|---|
| `Decimal.ReadIntRoundTrip` | tracker/preload/libc_preload/file_report.c:54-58 | a number printed with `%ld` reads back as the same number and leaves the text after it untouched |
| `Decimal.IntToStringInjective` | tracker/preload/libc_preload/file_report.c:54-58 | two different numbers never print the same |
| `JsonUtil.StringToJsonValue` | tracker/preload/libc_preload/util.c:101-132 | the result is enclosed in quotes; its length is n + the escape count + 2, the size the measuring pass computes |
| `JsonUtil.EscapeBody` | tracker/preload/libc_preload/util.c:103-114 | each input byte costs 1 + (1 for a quote or backslash) + (5 for an unprintable byte) output bytes |
| `JsonUtil.EscapeChar` | tracker/preload/libc_preload/util.c:117-128 | the per-byte rule has the length the measuring pass charges for that byte |
| `JsonUtil.EscapeCharUpperHex` | tracker/preload/libc_preload/util.c:121-123 | an unprintable byte becomes `\u` and four hex digits, all `0`-`9` or upper-case `A`-`F` |
| `JsonUtil.EscapeBodyAppend` | tracker/preload/libc_preload/util.c:116-129 | escaping works byte by byte: escaping a concatenation is the concatenation of the escapes |
| `JsonUtil.CountEscapes` | tracker/preload/libc_preload/util.c:103-112 | the measuring loop computes the number of extra bytes the escapes take |
| `JsonUtil.WriteEscapedBody` | tracker/preload/libc_preload/util.c:116-129 | the writing loop places exactly the escaped bytes after the opening quote and stays inside the buffer |
| `JsonUtil.StringToJsonValueBuffer` | tracker/preload/libc_preload/util.c:101-132 | the buffer, allocated from the measured size, is filled exactly (the `assert` at the end holds), and its content is the escaped string |
| `JsonUtil.JsonValueArrayToJsonList` | tracker/preload/libc_preload/util.c:134-165 | the list is bracketed; its length is the sum of the value lengths + max(count - 1, 0) + 2 |
| `JsonUtil.JoinLength` | tracker/preload/libc_preload/util.c:136-145 | the comma-joined values take their total length plus one comma between neighbours |
| `JsonUtil.MeasureValues` | tracker/preload/libc_preload/util.c:140-143 | the measuring loop sums the value lengths |
| `JsonUtil.WriteValues` | tracker/preload/libc_preload/util.c:151-160 | the copying loop writes exactly the values joined by commas after the opening bracket, within the buffer |
| `JsonUtil.JsonValueArrayToJsonListBuffer` | tracker/preload/libc_preload/util.c:134-165 | the two-pass C algorithm fills the allocated buffer exactly, and the result is the values joined by commas inside brackets |
| `JsonUtil.EscapeAll` | tracker/preload/libc_preload/util.c:170-180 | every string is escaped on its own, in order, with none dropped or added |
| `JsonUtil.StringArrayToJsonList` | tracker/preload/libc_preload/util.c:167-188 | the list is bracketed, and is `[]` exactly when there are no strings |
| `JsonUtil.BytesToHexString` | tracker/preload/libc_preload/util.c:85-92 | two lowercase hex digits per byte, high nibble first, length 2·count |
| `JsonUtil.BytesToHexStringBuffer` | tracker/preload/libc_preload/util.c:85-92 | the `sprintf("%02x")` loop writes the same string |
| `Decoders.Hex4RoundTrip` | tracker/preload/libc_preload/util.c:122-123 | `%04X` of a byte reads back as that byte |
| `Decoders.EscapeCharDecodes` | tracker/preload/libc_preload/util.c:117-128 | each byte's escape decodes under RFC 8259 section 7 to that byte |
| `Decoders.EscapeBodyDecodes` | tracker/preload/libc_preload/util.c:116-129 | the escaped body decodes back to the input, stopping at the closing quote |
| `Decoders.StringToJsonValueDecodes` | tracker/preload/libc_preload/util.c:101-132 | for ASCII input the output is one RFC 8259 string literal whose value is the input; text after it is left alone |
| `Decoders.StringToJsonValueIsLiteral` | tracker/preload/libc_preload/util.c:101-132 | the output is a complete, valid JSON string literal |
| `Decoders.StringToJsonValueInjective` | tracker/preload/libc_preload/util.c:101-132 | different strings get different encodings |
| `Decoders.EscapeBodyPrintable` | tracker/preload/libc_preload/util.c:117-128 | the escaped output consists of printable characters only |
| `Decoders.DecodeItemsOfJoin` | tracker/preload/libc_preload/util.c:134-165 | comma-joined string literals decode back to the strings, in order |
| `Decoders.StringArrayToJsonListDecodes` | tracker/preload/libc_preload/util.c:167-188 | `string_array_to_json_list` decodes back to the same strings, same count, same order |
| `Decoders.BytesToHexStringDecodes` | tracker/preload/libc_preload/util.c:85-92 | the hex string decodes back to the bytes |
| `Decoders.VerbatimDecodes` | tracker/preload/libc_preload/exec.c:38-39 | for text as characters (ASCII bytes in the C code), a field inserted unescaped between quotes decodes under RFC 8259 to itself, ending at its closing quote, exactly when it holds no quote, backslash or control byte |
| `Decoders.BackslashInVerbatim` | tracker/preload/libc_preload/access.c:17 | a JSON reader reads the verbatim path `a\nb` as `a`, a newline, `b`: the record does not read back under RFC 8259 |
| `LinkName.Readlink` | tracker/preload/libc_preload/util.c:37 | `readlink` fails exactly when there is no link; otherwise it returns at most `max` bytes, as many as it counts |
| `LinkName.CallReadlink` | tracker/preload/libc_preload/util.c:35-46 | failure exactly when the link is missing; the full name exactly when the target is shorter than the buffer; truncation otherwise |
| `LinkName.BufferSizeWithinCap` | tracker/preload/libc_preload/util.c:13-14 | buffer sizes 1024·2^k stay within 1 MiB exactly for k ≤ 10 |
| `LinkName.ReadLoop` | tracker/preload/libc_preload/util.c:48-65 | the retry loop makes at most 11 attempts; it resolves exactly when the link exists and is at most 1 MiB long, returns the whole target, and stops at the first buffer that holds it |
| `LinkName.ReadLinknameOf` | tracker/preload/libc_preload/util.c:48-65 | `read_linkname_of` resolves the `/proc/self/fd` link in at most 11 `readlink` calls, or aborts |
| `LinkName.LinknameOf` | tracker/preload/libc_preload/util.c:67-83 | fds 0, 1 and 2 are `stdin`, `stdout` and `stderr`; any other fd is its `/proc/self/fd` link target, or an abort |
| `FileReport.Create` | tracker/preload/libc_preload/file_report.c:35-47 | a new report has one slot and no entries, and satisfies the invariant |
| `FileReport.Add` | tracker/preload/libc_preload/file_report.c:62-75 | one copy of the event is appended after the earlier entries; the capacity stays or doubles; `count < capacity` and the power-of-two capacity are kept |
| `FileReport.AddAll` | tracker/preload/libc_preload/file_report.c:62-75 | any sequence of `add` calls keeps the invariant and leaves exactly the added events, in call order, with the output path unchanged |
| `FileReport.CapacityIsLeastPow2Above` | tracker/preload/libc_preload/file_report.c:64-69 | the capacity is the least power of two strictly greater than the entry count |
| `FileReport.CurrentFilepath` | tracker/preload/libc_preload/file_report.c:49-60 | the file name records the pid, and the tid exactly when the tid differs from the pid |
| `FileReport.CurrentFilepathDistinguishes` | tracker/preload/libc_preload/file_report.c:49-60 | two processes or threads never share a log file |
| `FileReport.Document` | tracker/preload/libc_preload/file_report.c:84-99 | the document carries pid, ppid, argv and envp unchanged; its log is the list of raw entries in add order |
| `FileReport.BufferedEndToEnd` | tracker/preload/libc_preload/file_report.c:35-99 | create, then adds, then teardown: the log holds exactly the added events in call order |
| `FileReport.ReportBuffer.Append` | tracker/preload/libc_preload/file_report.c:62-75 | the array-backed add (with `realloc` as allocate-and-copy) does what the abstract `Add` does |
| `FileReport.ReportBuffer.Destroy` | tracker/preload/libc_preload/file_report.c:84-99 | slot `count` is free for the NULL sentinel; the walk up to the NULL meets exactly the stored entries, so the document is the abstract one |
| `Events.Envelope` | tracker/preload/libc_preload/exec.c:11-19 | the shared record prefix reads back, through the raw quote-delimited field reader, as its timestamp, function name and data when the name has no quote |
| `Exec.ExitRecord` | tracker/preload/libc_preload/exec.c:8-23 | the exit record reads back as its timestamp and status |
| `Exec.ExitCall` | tracker/preload/libc_preload/exec.c:52-68 | `exit`, `_exit` and `_Exit` append exactly one exit record and never return; the process ends with the given status; the destructor that writes the report runs exactly for `exit` |
| `Exec.ExecRecord` | tracker/preload/libc_preload/exec.c:25-50 | an exec record reads back, through the raw quote-delimited field reader, as its call exactly when the function name and file name, inserted unescaped, have no quote |
| `Exec.ExecCalled` | tracker/preload/libc_preload/exec.c:25-50 | one record is appended, and the caller sees the real call's outcome unchanged |
| `Exec.Execve` | tracker/preload/libc_preload/exec.c:70-76 | records `execve` with its environment; the result is the real `execve`'s for the same arguments |
| `Exec.Execv` | tracker/preload/libc_preload/exec.c:110-116 | records `execv` with `envp` `[]`; the result is the real `execv`'s |
| `Exec.Execvp` | tracker/preload/libc_preload/exec.c:118-124 | records `execvp` with `envp` `[]`; the result is the real `execvp`'s |
| `Exec.Execvpe` | tracker/preload/libc_preload/exec.c:126-132 | records `execvpe` with its environment; the result is the real `execvpe`'s |
| `Exec.Fexecve` | tracker/preload/libc_preload/exec.c:134-142 | records the descriptor's link name as the file name (`stdin`/`stdout`/`stderr` for fds 0-2), then returns the real result; an unresolvable link aborts without a record |
| `Access.AccessRecord` | tracker/preload/libc_preload/access.c:11-22 | the access record reads back, through the raw quote-delimited field reader, as its call exactly when the path, inserted unescaped, has no quote |
| `Access.Access` | tracker/preload/libc_preload/access.c:7-27 | the caller gets exactly the real `access` result; one record is appended, and its `result` field is that same value |
| `Integrity.UniquePidsSize` | analyze_base/src/build.rs:156-166 | the pid map has as many entries as the list exactly when no pid repeats |
| `Integrity.ParentlessCountAtMostOne` | analyze_base/src/build.rs:167-173 | the parentless fold stays at most 1 exactly when at most one process has a parent outside the recorded pids |
| `Integrity.VerifyIntegrity` | analyze_base/src/build.rs:155-175 | accepted iff the pids are distinct and at most one process lacks a recorded parent; the duplicate error exactly when a pid repeats, which takes precedence; the missing-process error exactly when the pids are distinct but two or more processes lack a recorded parent |
| `AnalyzeBuild.VerifyIntegrity` | analyze_base/src/build.rs:155-175 | the crate's check accepts exactly distinct pids with at most one parentless process; `DuplicatePid` exactly when a pid repeats; `MissingProcess` exactly otherwise |
| `TrackBuild.VerifyIntegrity` | tracker/track/src/build.rs:96-119 | the crate's check accepts exactly distinct pids with at most one parentless process; the duplicate-pid message exactly when a pid repeats; the multiple-components message exactly otherwise |
| `ExitStatuses.StatusOf` | analyze_base/src/build.rs:110-111 | `success()` holds exactly for code 0; a status without `code()` is a signal; any other status carries its code |
| `ExitStatuses.Code` | analyze_base/src/build.rs:111 | `code()` inverts the construction: the status built from a status's code is that status |
| `Integrity.TreePasses` | analyze_base/src/build.rs:210-218 | a tree of four distinct pids shaped like the test's 1←2, 1←3, 2←4 is accepted, whatever the root's unrecorded parent |
| `Integrity.MissingParentFails` | analyze_base/src/build.rs:221-229 | next to the tree 1←2, 1←3, any process whose parent is not recorded (the test uses 5 with parent 4) gives the missing-process error |
| `Integrity.DuplicateFails` | analyze_base/src/build.rs:232-240 | a repeated pid 1 gives the duplicate error |
| `Integrity.DuplicateReportedFirst` | analyze_base/src/build.rs:164-172 | a repeated pid is reported even when several processes are also parentless |
| `Integrity.SelfParentPasses` | analyze_base/src/build.rs:167-170 | a process that names itself as parent counts as having a recorded parent |
| `Integrity.DetachedCyclePasses` | tracker/track/src/build.rs:92-119 | a root plus two processes that are each other's parent, linked to the root by neither pid nor ppid, is accepted: the check does not establish one component |
| `AnalyzeBuild.EventFrom` | analyze_base/src/build.rs:41-52 | the timestamp is in microseconds: div 10^6 gives the seconds, mod 10^6 the truncated sub-second microseconds |
| `AnalyzeBuild.EventFromOrdered` | analyze_base/src/build.rs:44-45 | later instants (at microsecond resolution) get larger timestamps |
| `AnalyzeBuild.New` | analyze_base/src/build.rs:89-97 | `Build::new` succeeds iff the integrity predicate holds, and keeps the command and processes unchanged and in order; a repeated pid yields `DuplicatePid`, otherwise `MissingProcess` |
| `AnalyzeBuild.ExecuteCommand` | analyze_base/src/build.rs:106-119 | the collected processes exactly for a successful build; a non-zero exit code is carried by its error; the signal error when there is no code |
| `AnalyzeBuild.ExecuteOnCode` | analyze_base/src/build.rs:110-118 | read from `code()`: processes are collected exactly for code 0; any other code is carried by the error; no code is the signal error |
| `AnalyzeBuild.FromCommand` | analyze_base/src/build.rs:99-104 | a build results exactly from a successful run whose recording passes the integrity check; a failed run gives its own exit-code or signal error; a successful run fails only with an integrity error |
| `AnalyzeBuild.EmptyAndSingleAccepted` | analyze_base/src/build.rs:195-207 | the empty list and a single process are accepted |
| `AnalyzeBuild.TreeAccepted` | analyze_base/src/build.rs:209-218 | the four-process tree is accepted |
| `AnalyzeBuild.MissingParentRejected` | analyze_base/src/build.rs:220-229 | a second parentless process is rejected with `MissingProcess` |
| `AnalyzeBuild.DuplicatePidRejected` | analyze_base/src/build.rs:231-240 | a repeated pid is rejected with `DuplicatePid` |
| `TrackBuild.New` | tracker/track/src/build.rs:31-39 | succeeds iff the integrity predicate holds, keeping command and processes; otherwise it fails with the duplicate-pid message first, else the multiple-components message |
| `TrackBuild.ExecuteCommand` | tracker/track/src/build.rs:65-90 | the collected processes exactly for a successful build; a non-zero exit code is named in its message; a signal yields the signal message |
| `TrackBuild.ExecuteOnCode` | tracker/track/src/build.rs:80-89 | read from `code()`: processes are collected exactly for code 0; any other code is named in the message; no code gives the signal message |
| `TrackBuild.ExitCodeMessage` | tracker/track/src/build.rs:81-83 | an exit-code message is never the signal message |
| `TrackBuild.ExitCodeMessageInjective` | tracker/track/src/build.rs:81-83 | different exit codes give different messages |
| `TrackBuild.FromCommand` | tracker/track/src/build.rs:41-46 | a build results exactly from a successful run whose recording passes the check; a failing exit code gives its message, a signal the signal message; a successful run fails only with one of the two integrity messages |
| `TrackBuild.DetachedCycleAccepted` | tracker/track/src/build.rs:92-119 | the doc comment's single-component claim is not what is checked: a detached cycle is accepted |
| `TrackBuild.DuplicatePidMessage` | tracker/track/src/build.rs:173-182 | a repeated pid gives "Duplicate pid found!" |
| `TrackBuild.MissingParentMessage` | tracker/track/src/build.rs:162-171 | a second parentless process gives the multiple-components message |
| `UtilExamples.PlainUnchanged` | tracker/preload/libc_preload/util.c:116-129 | a string with nothing to escape is only enclosed in quotes |
| `UtilExamples.PlainStrings` | tracker/preload/libc_preload/main.test.c:116-128 | `""` encodes as `""`, and `test` as `"test"` |
| `UtilExamples.QuoteAndBackslash` | tracker/preload/libc_preload/main.test.c:130-142 | a quote encodes as `"\""` and a backslash as `"\\"` |
| `UtilExamples.ControlCharacter` | tracker/preload/libc_preload/main.test.c:144-149 | byte 0x07 encodes as `"\u0007"` |
| `UtilExamples.UnitSeparatorEscape` | tracker/preload/libc_preload/util.c:121-123 | byte 0x1F encodes as `"\u001F"`, with an upper-case hex letter |
| `UtilExamples.DeleteEscape` | tracker/preload/libc_preload/util.c:121-123 | DEL, 0x7F, encodes as `"\u007F"` |
| `UtilExamples.EmptyArray` | tracker/preload/libc_preload/main.test.c:151-158 | the empty list encodes as `[]` |
| `UtilExamples.TwoStrings` | tracker/preload/libc_preload/main.test.c:160-169 | `["test0","test1"]` is the encoding of the two strings |
| `UtilExamples.EscapedArrayElement` | tracker/preload/libc_preload/main.test.c:171-179 | a backslash followed by a quote encodes as `["\\\""]` |
| `UtilExamples.HexBytes` | tracker/preload/libc_preload/main.test.c:105-114 | the bytes 2b 41 7f 80 ff encode as `2b417f80ff` |
| `UtilExamples.StandardLinknames` | tracker/preload/libc_preload/main.test.c:81-87 | fds 0, 1 and 2 are named `stdin`, `stdout` and `stderr`, whatever links exist |
| `UtilExamples.LinknameFile` | tracker/preload/libc_preload/main.test.c:89-103 | a descriptor whose `/proc` link names a file resolves to that file name |
| `UtilExamples.FileReportLog` | tracker/preload/libc_preload/main.test.c:24-64 | after adding `test0` and `test1`, the log field is `[test0,test1]` |

## Left out

- `execl`, `execlp`, `execle` (exec.c:78-108): they read a `char *` as a `char **` and walk variadic memory. That is undefined behaviour, and no faithful model exists.
- `JsonUtil.StringToJsonValue`, `JsonUtil.EscapeBody`, `JsonUtil.EscapeChar`, `JsonUtil.StringToJsonValueBuffer`, `JsonUtil.EscapeAll`, `JsonUtil.StringArrayToJsonList`, `Decoders.StringArrayToJsonListDecodes`, `Exec.ExecRecord`, `Exec.ExecCalled`, `Exec.Execve`, `Exec.Execv`, `Exec.Execvp`, `Exec.Execvpe`, `Exec.Fexecve`, `FileReport.Document`, `FileReport.ReportBuffer.Destroy`, `FileReport.BufferedEndToEnd`, and the `Decoders` lemmas about these encoders: they require the escaped strings (for the exec wrappers and the document, `argv` and `envp`) to hold bytes in 1..127. For bytes above 127, the C code passes a signed `char` to `isprint` and to `%04X`. That is undefined, and the output can outgrow the measured buffer.
- `JsonUtil.BytesToHexString`: for a count of 0 the C function returns an unterminated buffer. The model returns the empty string.
- The dynamic-symbol lookup of `libc.c` is not part of this model. Each `real_*` function is a function-typed parameter.
- `safe_sprintf`, `microseconds_since_epoch` and `gettimeofday`: formatting is string concatenation, and the timestamp is a parameter.
- File I/O of `file_report_destroy` (`mkdir`, `open`, `write`) and freeing memory: only the document's content is modelled.
- `file_report_create`'s missing `return` and its one-byte-short `malloc` for the output path: the intended state is modelled instead.
- The `main.c` start-up and teardown, and the `report.c` dispatch table: `report_add` is `FileReport.Add`.
- `Access.Access`: `errno` is not modelled. The wrapper calls `safe_sprintf`, `report_add` and `free` after the real `access` (access.c:9-26) and does not save `errno`, so a caller can see an `errno` other than the one `access` set.
- `Exec.ExitCall`: the writing of the report is not modelled. `destructorRuns` says whether the destructor (main.c:22-26, `file_report_destroy`) runs: for `exit` only, so the records of a process ended by `_exit` or `_Exit` never reach the output directory.
- `Exec.ExecCalled`: a successful exec (`ImageReplaced`) replaces the image without running the destructor, so the in-memory report, this exec record included, is discarded.
- `Exec.Execve`, `Exec.Execv`, `Exec.Execvp`, `Exec.Execvpe`, `Exec.Fexecve`: `argv` and `envp` are sequences, so a NULL array cannot be passed. Linux accepts NULL there, but `string_array_to_json_list` reads `arr[0]` without a NULL check (util.c:170), so the wrapper crashes before the real call.
- `Decoders.VerbatimDecodes`: the model's text is a sequence of characters, not bytes. The iff is about characters, and it matches the C code only for ASCII fields. A path is any sequence of bytes, and exec.c:38-39 and access.c:17 copy it unchanged. JSON text must be UTF-8 (section 8.1 of RFC 8259), so a path that is not valid UTF-8, such as a lone Latin-1 byte 0xE9, makes the whole document unreadable to a JSON reader. The model does not capture this.
- `Exec.ExecRecord`, `Access.AccessRecord`, `Events.Envelope`: they read back through the raw quote-delimited field reader. A JSON reader decodes a verbatim field with a backslash or a control byte differently (`Decoders.VerbatimDecodes`, `Decoders.BackslashInVerbatim`).
- Concurrency: the C buffer has no locking, and the model is sequential.
- The Rust preload library (`lib.rs`), the command-line programs, `collect_processes`, `execute_with_tracker`, and serde parsing: these are process spawning, the filesystem and FFI. The exit status and the collected processes are inputs.
- Decoding of surrogate pairs (`\uD800`-`\uDFFF`): the decoder refuses them. The encoder never produces them for ASCII input.
- `AnalyzeBuild.EventFrom`: integers are unbounded, so the `usize` overflow of `as_secs() as usize * 1_000_000` (analyze_base/src/build.rs:44) is not modelled. The model assumes a 64-bit `usize`, which overflows 2^64 µs, about 584,000 years, after the epoch. With a 32-bit `usize` it would overflow 4,295 seconds after the epoch, so every present-day timestamp would wrap in a release build and panic in a debug build.
- Integer widths: `pid_t`, `long`, `size_t` and `usize` are mathematical integers. `int` results (`access`, the exec family) are unbounded `int`s returned unchanged.
