# benchie, modelled in Dafny

benchie is a command-line benchmarking helper. It launches a program, measures its
user, system and wall-clock time, relays its standard output, and stores a record
of the run together with user tags and Git metadata. This project models the core
of that tool in Dafny and proves properties of the model:

- **POSIX backend** (`unix.dfy`, module `Unix`). `execute_and_measure` rejects an
  empty command. It converts the arguments and the inherited environment to C
  strings and builds the null-terminated pointer arrays. It then runs the
  `posix_spawn` preparation calls, starts the clock, spawns, closes the pipe's
  write end, waits with `wait4` and stops the clock. Last it converts the
  `rusage` times, reads the child's output, extracts its tags and echoes the
  output. Every operating-system call is replaced by its outcome, read from a
  `UnixOs` value. The method returns the list of calls it made, so the contracts
  can state the order of the steps and the error each failing step produces.
- **Windows backend** (`windows.dfy`, module `Windows`). The command line is the
  arguments joined with spaces, as NUL-terminated UTF-16. After it come
  `CreateProcessW`, an unbounded `WaitForSingleObject`, `GetExitCodeProcess` and
  `GetProcessTimes`. `FILETIME` tick counts become Durations.
- **Rust `Duration` arithmetic** (`durations.dfy`). This covers `from_secs`,
  `from_micros` and the checked `+` and `-` that the backends rely on.
  **UTF-16** (`utf16.dfy`) covers `encode_utf16` and a decoder that shows it
  loses nothing.
- **Tag arguments** (`utils.dfy`, `cli.dfy`). The `key=value` validator and
  parser, and the map the argument parser builds from repeated `--tag`
  arguments.
- **`Value`** (`values.dfy`). The tagged union of stored values, its `From` and
  `TryInto` conversions, and the growable `Values` list with its `{a, b}`
  rendering.
- **Git metadata** (`git.dfy`). The four-entry `GitInfo` iterator, the
  commit-message first-line rule, and the staged and unstaged classification
  behind `is_dirty`.
- **`show_1d_table`** (`show.dfy`). The loop that turns stored benchmarks into
  table rows and counts the benchmarks missing either key.

`strings.dfy` holds the `split`/`join` and decimal-text helpers.
`execution.dfy` holds `ExecutionResult` and the error kinds both backends share.

## Model

| member | source | states |
|---|---|---|
| Unix.ToCStrings | src/os/unix.rs:23-27 | Converting the arguments to C strings succeeds exactly when none of them holds a NUL byte; the C strings are the arguments unchanged |
| Unix.EnvStrings | src/os/unix.rs:29-30 | One entry per inherited variable, in order; its contents are stated by `Unix.EnvStringsNul` and `Unix.EnvEntriesSplitBack` |
| Unix.EnvStringsNul | src/os/unix.rs:29-32 | A formatted `key=value` environment entry holds a NUL exactly when its key or value does, so environment conversion fails exactly then |
| Unix.EnvEntriesSplitBack | src/os/unix.rs:29-30 | Each `key=value` entry cuts back, at its first `=`, into the variable's name and value whenever the name holds no `=` |
| Unix.CreateNullTerminated | src/os/unix.rs:131-139 | The pointer array has one entry per string, pointing at that string, in order, followed by a single null |
| Unix.TimevalToDuration | src/os/unix.rs:124-129 | Succeeds exactly when both `timeval` fields are non-negative (otherwise the `u64` conversion error); the Duration is seconds plus microseconds, and the `+` never overflows |
| Unix.TimevalCarry | src/os/unix.rs:124-129 | Microseconds of a million or more carry into whole seconds; the nanosecond part is the remaining microseconds times 1000 |
| Unix.PrepareSpawn | src/os/unix.rs:18-44 | Empty command, then NUL in an argument, then NUL in the environment are rejected in that order; otherwise the spawn call gets the first argument as program and both null-terminated arrays |
| Unix.Setup | src/os/unix.rs:49-67 | The five preparation calls run in order; the first failing one ends setup with its error and nothing after it is called; on success the pipe's two ends are recorded |
| Unix.Finish | src/os/unix.rs:101-120 | After a successful wait: a negative rusage field fails before any read; otherwise the read end is read, then tags extracted, then the output echoed; the read end is closed on every path from the read on; the result holds both converted times, the wall time, the raw status and the tags |
| Unix.ExecuteAndMeasure | src/os/unix.rs:15-122 | For every sequence of OS outcomes: the exact calls made and the error returned at each failing step, with the `wait4` result judged by the corrected check (-1 is failure) rather than the source's `!= 0`; see Findings. The clock starts just before the spawn, the write end is closed before the spawn result is checked, and the clock stops before the wait result is checked. A run that succeeds throughout returns the converted times and the tags |
| Unix.WaitCheckAsWrittenMissesFailure | src/os/unix.rs:87-99 | A failed blocking `wait4` (return -1) passes the `result != 0` check as written |
| Unix.WaitCheckAsWrittenNeverFires | src/os/unix.rs:87-99 | For every value a blocking `wait4` can return, the check as written accepts it |
| Unix.WaitCheckDetectsFailure | src/os/unix.rs:87-99 | The corrected check accepts exactly the values that name a reaped child |
| Durations.FromSecs | src/os/unix.rs:125 | `Duration::from_secs(s)` stands for `s` seconds |
| Durations.FromMicros | src/os/unix.rs:126 | `Duration::from_micros(m)` stands for `m` microseconds |
| Durations.CheckedAdd | src/os/unix.rs:128 | Addition of Durations succeeds exactly when the sum stays below the `u64`-seconds limit, and then gives the sum |
| Durations.CheckedSub | src/os/windows.rs:100-101 | Subtraction succeeds exactly when the first Duration is not shorter, and then gives the difference |
| Durations.SubUndoesAdd | src/os/windows.rs:100-101 | Subtracting what was added gives back the original Duration |
| Windows.Ticks | src/os/windows.rs:107-108 | Joining the two 32-bit halves gives a tick count below 2^64 |
| Windows.FiletimeFits | src/os/windows.rs:110-120 | Neither `expect` in `filetime_to_duration` can fire: the seconds fit a `u64` and the rest is below one second |
| Windows.FiletimeToDuration | src/os/windows.rs:106-121 | The Duration stands for the tick count times 100 nanoseconds |
| Windows.GetExecutionTimes | src/os/windows.rs:82-103 | User and system time are the converted user and kernel ticks; real time is exit minus creation; the subtraction panics exactly when exit precedes creation |
| Windows.CommandLine | src/os/windows.rs:24-28 | The command line ends in a 0 unit |
| Windows.CommandLineTerminatedOnce | src/os/windows.rs:24-28 | If no argument holds NUL, the terminating 0 is the only 0 unit |
| Windows.CommandLineRoundTrip | src/os/windows.rs:24-28 | Decoding the command line gives back the space-joined text; splitting that at spaces recovers the arguments when none holds a space |
| Windows.ExecuteAndMeasure | src/os/windows.rs:16-80 | The empty command is rejected before any call. Otherwise: the exact calls made, the error of each failing step, and a result with the times from `GetProcessTimes`, the exit code and an empty tag map |
| Utf16.DecodeEncode | src/os/windows.rs:26 | UTF-16 encoding loses nothing: decoding gives back the text |
| Utf16.EncodeZero | src/os/windows.rs:26-27 | A 0 unit appears in the encoding exactly when the text holds NUL |
| Strings.Split | src/utils.rs:10 | `split` always yields a first piece, which is the text up to the first separator; there are two or more pieces exactly when the separator occurs; no piece holds it |
| Strings.SplitJoin | src/os/windows.rs:25 | Splitting a joined list at the separator gives the list back when no element holds the separator |
| Strings.JoinSplit | src/utils.rs:10 | Joining the pieces of a split with the separator gives back the text |
| Strings.IntToStringRoundTrip | src/value.rs:25 | An integer's decimal text parses back to the integer |
| Utils.ParseKeyValuePair | src/utils.rs:1-7 | Panics exactly when there is no `=`; otherwise gives the first two `=`-separated pieces, which together with one `=` form a prefix of the input |
| Utils.IsKeyValuePair | src/utils.rs:9-16 | Accepts exactly when the first `=` is neither at the start nor followed by the end or another `=`; the error message is the fixed one |
| Utils.RejectedShapes | src/utils.rs:12-15 | No `=`, an empty key and an empty value are each rejected |
| Utils.OnlyFirstTwoPiecesChecked | src/utils.rs:9-16 | `k=v=anything` is accepted and parses to `(k, v)`: text after a second `=` is ignored |
| Utils.ValidatedParses | src/utils.rs:1-16 | Every accepted tag parses without panicking into a non-empty key and value |
| Utils.RoundTrip | src/utils.rs:1-16 | `key=value` without further `=` is accepted and parses back to `(key, value)` |
| Cli.Pair | src/cli.rs:96-102 | A validated tag parses to a non-empty key and value |
| Cli.CollectTags | src/cli.rs:79-83 | The loop inserting parsed tags in argument order builds exactly the specified map |
| Cli.TagsFromKeys | src/cli.rs:81-83 | A key is in the tag map exactly when some tag argument has it |
| Cli.TagsFromLastWins | src/cli.rs:81-83 | A key maps to the value of the last tag argument with that key |
| Cli.TwoDistinctKeys | src/cli.rs:81-83 | Two validated tags with different keys give two entries |
| Cli.SingleTag | src/cli.rs:206-215 | `--tag key=value` gives the map `{"key": "value"}` |
| Cli.TwoTagsTwoEntries | src/cli.rs:238-252 | `--tag k1=v1 --tag k2=v2` with different keys gives two entries |
| Values.Display | src/value.rs:21-33 | An integer displays as decimal text that reads back as that integer; a string displays as itself; a bool as `true` or `false` according to its value; the other payloads use their formatter |
| Values.TryIntoTimestamp | src/value.rs:171-180 | Succeeds exactly on a Timestamp, giving its payload; otherwise the error names the value and `DateTime<Utc>` |
| Values.TryIntoString | src/value.rs:182-191 | Succeeds exactly on a String, giving its payload; otherwise the error names the value and `String` |
| Values.TryIntoByteSize | src/value.rs:193-202 | Succeeds exactly on a ByteSize, giving its payload; otherwise the error names the value and `ByteSize` |
| Values.TryIntoInteger | src/value.rs:204-213 | Succeeds exactly on an Integer, giving its payload; otherwise the error names the value and `i64` |
| Values.TryIntoBool | src/value.rs:215-224 | Succeeds exactly on a Bool, giving its payload; otherwise the error names the value and `bool` |
| Values.TryIntoDuration | src/value.rs:226-235 | Succeeds exactly on a Duration, giving its payload; otherwise the error names the value and `Duration` |
| Values.TryIntoOptionString | src/value.rs:237-246 | Succeeds exactly on a String, giving `Some` of it (never `None`); otherwise the error names the value and `Option<String>` |
| Values.ProjectionsRoundTrip | src/value.rs:85-246 | Every payload converted into a Value with `From` converts back to itself with `TryInto` |
| Values.FromOption | src/value.rs:127-169 | Converting an absent optional panics with the fixed serialization message; a present one converts as its payload does |
| Values.OptionRoundTrip | src/value.rs:129-169 | A present optional payload converted into a Value converts back to itself |
| Values.Values.constructor | src/value.rs:35 | The list holds the given values |
| Values.Values.Push | src/value.rs:37-40 | The value is appended at the end; earlier values are unchanged |
| Values.Values.Render | src/value.rs:43-62 | Two or more values render as `{` + their texts joined by `, ` + `}`; one value renders alone; an empty list panics |
| Git.Entries | src/git.rs:37-50 | Exactly four pairs with pairwise distinct keys; the values convert back to the commit id, commit message, branch (as strings) and the dirty flag (as a bool) |
| Git.GitInfoIterator.constructor | src/git.rs:20-25 | The iterator starts at the first entry |
| Git.GitInfoIterator.Next | src/git.rs:36-55 | Yields hash, message, branch and dirty flag in order, with their values, advancing by one each time; after the fourth it returns `None` and stays put |
| Git.FirstLine | src/git.rs:73-77 | No message gives ""; otherwise a prefix of the message without a line break, ending at the first line break if there is one |
| Git.IsStaged | src/git.rs:141-150 | An entry is staged exactly when its status shares a flag with the five INDEX_* flags (the `CURRENT` test is implied) |
| Git.IsUnstaged | src/git.rs:163-174 | An entry is unstaged exactly when it has an index-to-workdir delta and its status shares a flag with WT_MODIFIED/DELETED/RENAMED/TYPECHANGE; WT_NEW is not among them |
| Git.StagedFiles | src/git.rs:138-158 | The list is non-empty exactly when some entry is staged (not CURRENT, some INDEX_* flag) and has a head-to-index path |
| Git.UnstagedFiles | src/git.rs:160-182 | The list is non-empty exactly when some entry is unstaged (not CURRENT, has an index-to-workdir delta, WT_MODIFIED/DELETED/RENAMED/TYPECHANGE) and has a path |
| Git.IsDirty | src/git.rs:125-136 | A bare repository is an error with the fixed message; otherwise dirty exactly when either list is non-empty |
| Git.DirtyIffChangedEntry | src/git.rs:125-182 | A work tree is dirty exactly when some entry is staged or unstaged with a known path; entries that are only untracked or ignored never make it dirty |
| Show.MatchIndices | src/show.rs:15-31 | The positions of the benchmarks having both keys, strictly increasing, and every such benchmark is listed |
| Show.RowsFollowMatches | src/show.rs:15-31 | The j-th table row is the displayed row and metric values of the j-th benchmark having both keys, in benchmark order |
| Show.RowsPlusMisses | src/show.rs:12-32 | Every benchmark becomes either a row or a miss |
| Show.NotPresentMessage | src/show.rs:46-49 | The summary line is the quoted row and metric keys, then the miss count in decimal digits that read back as the count, then the fixed tail |
| Show.Show1dTable | src/show.rs:9-53 | Rows and miss count are as specified and add up to the number of benchmarks; the title is the two keys in bold; the summary is present exactly when there are misses and reports their count |

## Left out

- Foreign calls (`posix_spawnp`, `wait4`, `pipe`, `read`, the Win32 process API, `Instant`) are not executed. Their outcomes are fields of `UnixOs`/`WindowsOs`, and the model records the calls made.
- Unix.ExecuteAndMeasure: the inherited environment (`env::vars()`) is a parameter. `env::vars()` panics on a variable that is not valid Unicode; the model's strings are Unicode by construction, so this panic is not modelled.
- Values.Values.Render: the empty-list panic carries the debug-build message (`attempt to subtract with overflow`). In a release build `len() - 1` wraps around, and the panic comes instead from the out-of-bounds index, with an index-out-of-bounds message. The model fixes the debug message.
- `parse_tags_from_stdout` is not part of this model: its text is not available. Its outcome (tags, or an extraction error) is part of `UnixOs`. Sentinel lines, warnings and duplicate-key errors are therefore not modelled.
- Unix.ExecuteAndMeasure: both pipe ends leak when a preparation call after `pipe` fails; the read end leaks when spawn, wait or time conversion fails; neither posix_spawn object (file actions, spawn attributes) is ever destroyed, on any path. The model follows the code and records no such calls.
- Unix.ExecuteAndMeasure: the flow uses the corrected `wait4` check (`!= -1`), not the source's `result != 0`. It therefore accepts a return of 0, which the source rejects, and rejects -1, which the source lets through to read uninitialised `rusage`. A blocking `wait4` never returns 0, and the -1 path has no defined behaviour to model; the as-written check is modelled separately, as the Findings row explains.
- Unix.ExecuteAndMeasure: `status_code` is the raw `wait4` status word, as in the code. It is not decoded into an exit code.
- Windows.ExecuteAndMeasure: the child's standard output is not captured and the tag map is always empty, as in the code. The result of `WaitForSingleObject` and the return value of `GetProcessTimes` are ignored, as in the code. The `dbg!` print of the arguments is output only and is left out.
- Windows process and thread handles are never closed in the source; the model records no close calls.
- Values: the float, byte-size, duration (Debug form) and timestamp text forms come from external crates. They are passed in as `Formatters`.
- Values: serde serialization and deserialization (`serialize`, `deserialize`, the `type`/`value` JSON layout) is left out.
- Values.FromOption: one generic member stands for the seven `From<&Option<T>>` impls.
- Utils: `src/cli.rs:96-111` is a verbatim private copy of `src/utils.rs:1-16`. Both copies are modelled by the one `Utils` module.
- Argument parsing with clap (`parse_arguments`, subcommands, `requires`) is left out. `Cli` models only how validated tags become the tag map.
- Git: repository discovery, branch and commit lookup, and the status listing (git2 calls) are left out. Their results are inputs: a `GitInfo` and a list of status entries. A path is a string.
- Show: loading benchmarks from storage is left out. A benchmark is its data map from key to `Value`. Table layout and printing via `cli_table` are left out. The model returns the title cells, the rows and the summary line.
- `show` and `show_2d_table` are `todo!()` in the source and are not modelled.
- `crash_report.rs`, `storage.rs`, `system.rs`, `table.rs` and `benchmark.rs` are not part of this model.

## Findings

| source | as written | input that shows it | evidently intended | confidence | as-written member | corrected member |
|---|---|---|---|---|---|---|
| src/os/unix.rs:96-99 | After a blocking `wait4`, failure is checked with `result != 0` | `wait4` returning -1 (e.g. `EINTR` or `ECHILD`) passes the check, and the run goes on to read uninitialised `rusage` and `status` | `result != -1`: a blocking `wait4` returns the child's pid or -1, never 0 | high (not executed) | Unix.WaitCheckAsWrittenMissesFailure | Unix.WaitCheckDetectsFailure |
