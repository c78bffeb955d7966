/**
 * The Windows backend: run a command with `CreateProcessW`, wait for it,
 * read its exit code, and turn the four `FILETIME`s of `GetProcessTimes`
 * into Durations. Its standard output is not captured and its tag map is
 * always empty.
 *
 * The operating-system calls are replaced by their outcomes, taken from a
 * `WindowsOs` value; `ExecuteAndMeasure` returns the calls it made.
 */
module Windows {
  import opened Ints
  import opened Wrappers
  import opened Durations
  import opened Execution
  import Strings
  import Utf16

  /** A `FILETIME`: a 64-bit count of 100-nanosecond ticks split into two 32-bit halves. */
  datatype Filetime = Filetime(dwLowDateTime: u32, dwHighDateTime: u32)

  const NANOS_PER_TICK: nat := 100

  /**
   * `((high as u128) << 32) | (low as u128)`: the halves do not overlap, so
   * the shift and the or amount to `high * 2^32 + low`.
   */
  function Ticks(ft: Filetime): (t: nat)
    ensures t < U64_LIMIT
  {
    ft.dwHighDateTime * U32_LIMIT + ft.dwLowDateTime
  }

  /**
   * The two `expect`s in `filetime_to_duration` never fire: for every pair
   * of halves the whole seconds fit in a `u64` and the rest in a `u32`
   * (indeed below one second).
   */
  lemma FiletimeFits(ft: Filetime)
    ensures Ticks(ft) * NANOS_PER_TICK / NANOS_PER_SEC < U64_LIMIT
    ensures Ticks(ft) * NANOS_PER_TICK - (Ticks(ft) * NANOS_PER_TICK / NANOS_PER_SEC) * NANOS_PER_SEC < NANOS_PER_SEC
    ensures NANOS_PER_SEC <= U32_LIMIT
  {
    var n := Ticks(ft) * NANOS_PER_TICK;
    assert n < U64_LIMIT * NANOS_PER_TICK;
    assert n / NANOS_PER_SEC <= n / NANOS_PER_TICK;
  }

  /**
   * `filetime_to_duration`: ticks times 100 nanoseconds, split into whole
   * seconds and the nanoseconds below one second.
   */
  function FiletimeToDuration(ft: Filetime): (d: Duration)
    ensures TotalNanos(d) == Ticks(ft) * NANOS_PER_TICK
  {
    var nanoseconds := Ticks(ft) * NANOS_PER_TICK;
    var seconds := nanoseconds / NANOS_PER_SEC;
    var rest := nanoseconds - seconds * NANOS_PER_SEC;
    FiletimeFits(ft);
    Duration(seconds, rest)
  }

  /** The four out-parameters of `GetProcessTimes`. */
  datatype ProcessTimes = ProcessTimes(creation: Filetime, exit: Filetime, kernel: Filetime, user: Filetime)

  /**
   * `get_execution_times`: user and system time are the converted user and
   * kernel times; the real time is the converted exit time minus the
   * converted creation time, and that `-` panics when exit comes first.
   */
  function GetExecutionTimes(times: ProcessTimes): (r: Result<(Duration, Duration, Duration), ExecError>)
    ensures r.Ok? <==> Ticks(times.exit) >= Ticks(times.creation)
    ensures r.Err? ==> r.error == Panicked(Panic(SUB_OVERFLOW))
    ensures r.Ok? ==>
              && TotalNanos(r.value.0) == Ticks(times.user) * NANOS_PER_TICK
              && TotalNanos(r.value.1) == Ticks(times.kernel) * NANOS_PER_TICK
              && TotalNanos(r.value.2) == (Ticks(times.exit) - Ticks(times.creation)) * NANOS_PER_TICK
  {
    match CheckedSub(FiletimeToDuration(times.exit), FiletimeToDuration(times.creation))
    case None => Err(Panicked(Panic(SUB_OVERFLOW)))
    case Some(elapsed) => Ok((FiletimeToDuration(times.user), FiletimeToDuration(times.kernel), elapsed))
  }

  /**
   * The command line handed to `CreateProcessW`: the arguments joined with
   * single spaces, encoded as UTF-16, and terminated by one 0 unit.
   */
  function CommandLine(commandAndFlags: seq<string>): (units: seq<u16>)
    ensures |units| >= 1 && units[|units| - 1] == 0
  {
    Utf16.Encode(Strings.Join(commandAndFlags, " ")) + [0]
  }

  /** Without NUL characters in the arguments, the terminating 0 is the only 0 unit. */
  lemma {:induction false} CommandLineTerminatedOnce(commandAndFlags: seq<string>)
    requires !Strings.HasNul(commandAndFlags)
    ensures forall k :: 0 <= k < |CommandLine(commandAndFlags)| - 1 ==> CommandLine(commandAndFlags)[k] != 0
  {
    var joined := Strings.Join(commandAndFlags, " ");
    JoinHasNoNul(commandAndFlags);
    Utf16.EncodeZero(joined);
    var units := CommandLine(commandAndFlags);
    assert units[..|units| - 1] == Utf16.Encode(joined);
    forall k | 0 <= k < |units| - 1
      ensures units[k] != 0
    {
      assert units[k] == units[..|units| - 1][k];
    }
  }

  lemma {:induction false} JoinHasNoNul(parts: seq<string>)
    requires !Strings.HasNul(parts)
    ensures Strings.NUL !in Strings.Join(parts, " ")
  {
    if |parts| > 1 {
      assert !Strings.HasNul(parts[1..]) by {
        forall i | 0 <= i < |parts| - 1
          ensures Strings.NUL !in parts[1..][i]
        {
          assert parts[1..][i] == parts[i + 1];
        }
      }
      JoinHasNoNul(parts[1..]);
      assert Strings.NUL !in parts[0];
    } else if |parts| == 1 {
      assert Strings.NUL !in parts[0];
    }
  }

  /**
   * The program reads back exactly the joined text; when no argument holds
   * a space, splitting at spaces recovers the arguments. Arguments that hold
   * spaces are not kept apart.
   */
  lemma CommandLineRoundTrip(commandAndFlags: seq<string>)
    requires commandAndFlags != []
    ensures var units := CommandLine(commandAndFlags);
            Utf16.Decode(units[..|units| - 1]) == Some(Strings.Join(commandAndFlags, " "))
    ensures (forall i :: 0 <= i < |commandAndFlags| ==> ' ' !in commandAndFlags[i])
              ==> Strings.Split(Strings.Join(commandAndFlags, " "), ' ') == commandAndFlags
  {
    var units := CommandLine(commandAndFlags);
    assert units[..|units| - 1] == Utf16.Encode(Strings.Join(commandAndFlags, " "));
    Utf16.DecodeEncode(Strings.Join(commandAndFlags, " "));
    if forall i :: 0 <= i < |commandAndFlags| ==> ' ' !in commandAndFlags[i] {
      Strings.SplitJoin(commandAndFlags, ' ');
    }
  }

  const INFINITE: u32 := 0xFFFF_FFFF

  /** The answers the operating system gives. */
  datatype WindowsOs = WindowsOs(
    createProcess: bool,   // CreateProcessW
    exitCodeRead: bool,    // GetExitCodeProcess
    lastError: int,        // GetLastError after a failed call
    exitCode: u32,         // the exit code GetExitCodeProcess fills in
    times: ProcessTimes)   // the FILETIMEs GetProcessTimes fills in

  datatype Call =
    | CreateProcessW(commandLine: seq<u16>)
    | WaitForSingleObject(milliseconds: u32)
    | GetExitCodeProcess
    | GetProcessTimes

  /**
   * `execute_and_measure` on Windows: the empty command is rejected first;
   * otherwise the process is created from the joined command line, waited
   * for without a timeout, and its exit code and times are read.
   */
  method ExecuteAndMeasure(commandAndFlags: seq<string>, os: WindowsOs)
    returns (r: Result<(ExecutionResult, Tags), ExecError>, trace: seq<Call>)
    ensures commandAndFlags == [] ==> r == Err(EmptyCommand) && trace == []
    ensures commandAndFlags != [] ==> |trace| >= 1 && trace[0] == CreateProcessW(CommandLine(commandAndFlags))
    ensures commandAndFlags != [] && !os.createProcess ==> r == Err(SpawnFailed(os.lastError)) && |trace| == 1
    ensures commandAndFlags != [] && os.createProcess ==>
              && |trace| >= 3
              && trace[1..3] == [WaitForSingleObject(INFINITE), GetExitCodeProcess]
              && (!os.exitCodeRead ==> r == Err(WaitFailed(os.lastError)) && |trace| == 3)
              && (os.exitCodeRead ==>
                    && trace[3..] == [GetProcessTimes]
                    && match GetExecutionTimes(os.times)
                       case Err(e) => r == Err(e)
                       case Ok(t) => r == Ok((ExecutionResult(t.0, t.1, t.2, os.exitCode), map[])))
  {
    trace := [];
    if commandAndFlags == [] {
      return Err(EmptyCommand), trace;
    }
    var commandLine := CommandLine(commandAndFlags);
    var statusCode: u32 := 0;

    trace := trace + [CreateProcessW(commandLine)];
    if !os.createProcess {
      return Err(SpawnFailed(os.lastError)), trace;
    }
    trace := trace + [WaitForSingleObject(INFINITE)];
    trace := trace + [GetExitCodeProcess];
    if !os.exitCodeRead {
      return Err(WaitFailed(os.lastError)), trace;
    }
    statusCode := os.exitCode;

    trace := trace + [GetProcessTimes];
    var times := GetExecutionTimes(os.times);
    if times.Err? {
      return Err(times.error), trace;
    }
    var (userTime, systemTime, realTime) := times.value;
    r := Ok((ExecutionResult(userTime, systemTime, realTime, statusCode), map[]));
  }
}
