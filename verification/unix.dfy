/**
 * The POSIX backend: run a command through `posix_spawnp` with its standard
 * output redirected into a pipe, wait for it with `wait4`, and turn the
 * resource usage that call reports into Durations.
 *
 * Every operating-system call is replaced by its outcome, taken from a
 * `UnixOs` value, and `ExecuteAndMeasure` returns the sequence of calls it
 * made, so that the order of the steps can be stated.
 */
module Unix {
  import opened Ints
  import opened Wrappers
  import opened Durations
  import opened Execution
  import opened Strings

  /** `CString`: text without an interior NUL byte. */
  type CString = s: string | NUL !in s

  /**
   * `.map(CString::new).collect::<Result<Vec<_>, _>>()`: the conversion
   * fails as a whole as soon as one string holds a NUL byte.
   */
  function ToCStrings(ss: seq<string>): (r: Option<seq<CString>>)
    ensures r.Some? <==> !HasNul(ss)
    ensures r.Some? ==> r.value == ss
  {
    if ss == [] then Some([])
    else if NUL in ss[0] then None
    else match ToCStrings(ss[1..])
      case None => None
      case Some(rest) => Some([ss[0]] + rest)
  }

  /** `format!("{key}={value}")` for every inherited variable, in order. */
  function EnvStrings(env: seq<(string, string)>): (entries: seq<string>)
    ensures |entries| == |env|
  {
    seq(|env|, i requires 0 <= i < |env| => env[i].0 + "=" + env[i].1)
  }

  /** Some variable's name or value holds a NUL byte. */
  predicate EnvHasNul(env: seq<(string, string)>)
  {
    exists i :: 0 <= i < |env| && (NUL in env[i].0 || NUL in env[i].1)
  }

  /** A formatted entry holds a NUL exactly when its name or its value does. */
  lemma EnvStringsNul(env: seq<(string, string)>)
    ensures HasNul(EnvStrings(env)) <==> EnvHasNul(env)
  {
    var entries := EnvStrings(env);
    forall i | 0 <= i < |env|
      ensures NUL in entries[i] <==> NUL in env[i].0 || NUL in env[i].1
    {
      assert entries[i] == env[i].0 + "=" + env[i].1;
    }
  }

  /**
   * A reader of the environment block gets each variable back by cutting its
   * entry at the first `=`, as long as the name holds no `=` (which POSIX
   * names never do).
   */
  lemma EnvEntriesSplitBack(env: seq<(string, string)>)
    ensures forall i :: 0 <= i < |env| && '=' !in env[i].0 ==>
              var entry := EnvStrings(env)[i];
              var cut := IndexOf(entry, '=');
              cut < |entry| && entry[..cut] == env[i].0 && entry[cut + 1..] == env[i].1
  {
    var entries := EnvStrings(env);
    forall i | 0 <= i < |env| && '=' !in env[i].0
      ensures IndexOf(entries[i], '=') == |env[i].0|
      ensures entries[i][..|env[i].0|] == env[i].0 && entries[i][|env[i].0| + 1..] == env[i].1
    {
      assert entries[i] == env[i].0 + ['='] + env[i].1;
      IndexOfSeparator(env[i].0, '=', env[i].1);
    }
  }

  /** A `*mut c_char`: null, or the address of a C string holding `text`. */
  datatype Ptr = Null | To(text: string)

  /** `list` is the C array for `strings`: one pointer per string, then a null. */
  predicate NullTerminates(list: seq<Ptr>, strings: seq<string>)
  {
    && |list| == |strings| + 1
    && list[|strings|] == Null
    && forall i :: 0 <= i < |strings| ==> list[i] == To(strings[i])
  }

  /** `create_null_terminated`: fill a vector of `n + 1` nulls with the first `n` pointers. */
  method CreateNullTerminated(strings: seq<CString>) returns (list: seq<Ptr>)
    ensures NullTerminates(list, strings)
  {
    var buffer := new Ptr[|strings| + 1](_ => Null);
    var i := 0;
    while i < |strings|
      invariant 0 <= i <= |strings|
      invariant forall k :: 0 <= k < i ==> buffer[k] == To(strings[k])
      invariant forall k :: i <= k < buffer.Length ==> buffer[k] == Null
    {
      buffer[i] := To(strings[i]);
      i := i + 1;
    }
    list := buffer[..];
  }

  /** `struct timeval`; both fields are modelled as i64, which covers every unix target's field widths. */
  datatype Timeval = Timeval(tv_sec: i64, tv_usec: i64)

  /** The two fields of `struct rusage` the measurement reads. */
  datatype Rusage = Rusage(ru_utime: Timeval, ru_stime: Timeval)

  /**
   * `timeval_to_duration`: both fields must convert to `u64`, and the
   * microseconds are added to the seconds with `Duration`'s `+`.
   */
  function TimevalToDuration(t: Timeval): (r: Result<Duration, ExecError>)
    ensures r.Ok? <==> t.tv_sec >= 0 && t.tv_usec >= 0
    ensures r.Err? ==> r.error == TimeConversion
    ensures r.Ok? ==> TotalNanos(r.value) == t.tv_sec * NANOS_PER_SEC + t.tv_usec * NANOS_PER_MICRO
  {
    if t.tv_sec < 0 || t.tv_usec < 0 then Err(TimeConversion)
    else
      match CheckedAdd(FromSecs(t.tv_sec), FromMicros(t.tv_usec))
      // the `+` would panic here, but two non-negative i64 fields never reach the limit
      case None => assert false; Err(Panicked(Panic(ADD_OVERFLOW)))
      case Some(d) => Ok(d)
  }

  /** Microseconds of a million or more are carried into whole seconds. */
  lemma TimevalCarry(t: Timeval)
    requires t.tv_sec >= 0 && t.tv_usec >= 0
    ensures TimevalToDuration(t).Ok?
    ensures TimevalToDuration(t).value.secs == t.tv_sec + t.tv_usec / MICROS_PER_SEC
    ensures TimevalToDuration(t).value.nanos == (t.tv_usec % MICROS_PER_SEC) * NANOS_PER_MICRO
  {
    var d := TimevalToDuration(t);
    var expected := Duration(t.tv_sec + t.tv_usec / MICROS_PER_SEC, (t.tv_usec % MICROS_PER_SEC) * NANOS_PER_MICRO);
    assert TotalNanos(expected) == TotalNanos(d.value);
    TotalNanosInjective(expected, d.value);
  }

  /** The answers the operating system gives, one field per call or filled-in out-parameter. */
  datatype UnixOs = UnixOs(
    fileActionsInit: int,   // posix_spawn_file_actions_init
    spawnattrInit: int,     // posix_spawnattr_init
    pipe: int,              // pipe
    readFd: i32,            // the read end pipe fills in
    writeFd: i32,           // the write end pipe fills in
    addClose: int,          // posix_spawn_file_actions_addclose
    addDup2: int,           // posix_spawn_file_actions_adddup2
    spawn: int,             // posix_spawnp
    pid: i32,               // the process id posix_spawnp fills in
    wait: int,              // wait4
    status: i32,            // the status wait4 fills in
    rusage: Rusage,         // the resource usage wait4 fills in
    elapsed: Duration,      // Instant::elapsed, read once wait4 has returned
    output: Option<string>, // read_to_string: None for a read error or bytes that are not UTF-8
    tags: Option<Tags>)     // the tag extraction over the output; None when it fails

  /** The calls `ExecuteAndMeasure` makes, in the order it makes them. */
  datatype Call =
    | FileActionsInit
    | SpawnAttrInit
    | Pipe
    | AddClose(fd: int)
    | AddDup2(fd: int, newFd: int)
    | StartClock
    | Spawn(program: string, argv: seq<Ptr>, envp: seq<Ptr>)
    | Close(fd: int)
    | Wait4(pid: int)
    | StopClock
    | Read(fd: int)
    | ExtractTags(text: string)
    | Echo(text: string)

  /** The preparation calls made before the spawn, in order. */
  function SetupCalls(os: UnixOs): seq<Call>
  {
    [FileActionsInit, SpawnAttrInit, Pipe, AddClose(os.readFd), AddDup2(os.writeFd, 1)]
  }

  /** How many preparation calls are made: all five, or up to and including the first that fails. */
  function SetupCallsMade(os: UnixOs): (n: nat)
    ensures 1 <= n <= 5
  {
    if os.fileActionsInit != 0 then 1
    else if os.spawnattrInit != 0 then 2
    else if os.pipe == -1 then 3
    else if os.addClose != 0 then 4
    else 5
  }

  /** The preparation calls all succeed. */
  predicate SetupSucceeds(os: UnixOs)
  {
    os.fileActionsInit == 0 && os.spawnattrInit == 0 && os.pipe != -1 && os.addClose == 0 && os.addDup2 == 0
  }

  /** The command is non-empty and neither it nor the environment holds a NUL byte. */
  predicate ValidInputs(commandAndFlags: seq<string>, env: seq<(string, string)>)
  {
    commandAndFlags != [] && !HasNul(commandAndFlags) && !EnvHasNul(env)
  }

  /** The C array of pointers for `strings`. */
  function NullTerminated(strings: seq<string>): (list: seq<Ptr>)
    ensures NullTerminates(list, strings)
  {
    seq(|strings|, i requires 0 <= i < |strings| => To(strings[i])) + [Null]
  }

  /** The `posix_spawnp` call: the program, then argv and envp as null-terminated arrays. */
  function SpawnCall(commandAndFlags: seq<string>, env: seq<(string, string)>): Call
    requires commandAndFlags != []
  {
    Spawn(commandAndFlags[0], NullTerminated(commandAndFlags), NullTerminated(EnvStrings(env)))
  }

  /** The wait check as the source writes it: only a return value of 0 counts as failure. */
  predicate WaitAcceptedAsWritten(ret: int)
  {
    ret != 0
  }

  /** What `wait4` without `WNOHANG` can return: the reaped process id, or -1 on failure. */
  predicate BlockingWaitReturn(ret: int)
  {
    ret == -1 || ret > 0
  }

  /** The corrected wait check: -1 is failure. */
  predicate WaitAccepted(ret: int)
  {
    ret != -1
  }

  /** A failed blocking wait passes the check as written. */
  lemma WaitCheckAsWrittenMissesFailure()
    ensures BlockingWaitReturn(-1) && WaitAcceptedAsWritten(-1) && !WaitAccepted(-1)
  {
  }

  /** For every value a blocking wait4 can return, the check as written never fires. */
  lemma WaitCheckAsWrittenNeverFires(ret: int)
    requires BlockingWaitReturn(ret)
    ensures WaitAcceptedAsWritten(ret)
  {
  }

  /** For every value a blocking wait4 can return, the corrected check accepts exactly a reaped child. */
  lemma WaitCheckDetectsFailure(ret: int)
    requires BlockingWaitReturn(ret)
    ensures WaitAccepted(ret) <==> ret > 0
  {
  }

  /**
   * The first half of `execute_and_measure`, before any call into the
   * operating system: the empty-command guard, the C string conversions of
   * the arguments and of the `key=value` environment, and the two
   * null-terminated arrays.
   */
  method PrepareSpawn(commandAndFlags: seq<string>, env: seq<(string, string)>)
    returns (r: Result<Call, ExecError>)
    ensures commandAndFlags == [] ==> r == Err(EmptyCommand)
    ensures commandAndFlags != [] && HasNul(commandAndFlags) ==> r == Err(InvalidCommandEncoding)
    ensures (commandAndFlags != [] && !HasNul(commandAndFlags) && EnvHasNul(env)) ==> r == Err(InvalidEnvEncoding)
    ensures ValidInputs(commandAndFlags, env) ==> r == Ok(SpawnCall(commandAndFlags, env))
  {
    if commandAndFlags == [] {
      return Err(EmptyCommand);
    }
    var args := ToCStrings(commandAndFlags);
    if args.None? {
      return Err(InvalidCommandEncoding);
    }
    EnvStringsNul(env);
    var envs := ToCStrings(EnvStrings(env));
    if envs.None? {
      return Err(InvalidEnvEncoding);
    }
    var program := args.value[0];
    var envp := CreateNullTerminated(envs.value);
    var argv := CreateNullTerminated(args.value);
    assert argv == NullTerminated(commandAndFlags) && envp == NullTerminated(EnvStrings(env));
    r := Ok(Spawn(program, argv, envp));
  }

  /**
   * The preparation calls of `execute_and_measure`, each checked as soon as
   * it returns: file actions, spawn attributes, the pipe (whose two ends
   * land in `pipeFds`), closing the read end in the child and redirecting
   * the child's standard output to the write end.
   */
  method Setup(os: UnixOs, pipeFds: array<int>) returns (err: Option<ExecError>, trace: seq<Call>)
    requires pipeFds.Length == 2
    modifies pipeFds
    ensures err.None? <==> SetupSucceeds(os)
    ensures err.Some? ==> err.value.SetupFailed? && trace == SetupCalls(os)[..SetupCallsMade(os)]
    ensures err.None? ==> trace == SetupCalls(os) && pipeFds[0] == os.readFd && pipeFds[1] == os.writeFd
  {
    trace := [FileActionsInit];
    if os.fileActionsInit != 0 {
      return Some(SetupFailed("posix_spawn_file_actions_init")), trace;
    }
    trace := trace + [SpawnAttrInit];
    if os.spawnattrInit != 0 {
      return Some(SetupFailed("posix_spawnattr_init")), trace;
    }
    trace := trace + [Pipe];
    if os.pipe == -1 {
      return Some(SetupFailed("pipe")), trace;
    }
    pipeFds[0], pipeFds[1] := os.readFd, os.writeFd;
    trace := trace + [AddClose(pipeFds[0])];
    if os.addClose != 0 {
      return Some(SetupFailed("posix_spawn_file_actions_addclose")), trace;
    }
    trace := trace + [AddDup2(pipeFds[1], 1)];
    if os.addDup2 != 0 {
      return Some(SetupFailed("posix_spawn_file_actions_adddup2")), trace;
    }
    err := None;
  }

  /**
   * What `execute_and_measure` does once the child has been reaped: convert
   * both resource-usage times, read the child's output from `readFd`,
   * extract its tags and echo it; the read end is closed once it has been
   * taken over for reading, on every path from there.
   */
  method Finish(os: UnixOs, readFd: int, realTime: Duration)
    returns (r: Result<(ExecutionResult, Tags), ExecError>, trace: seq<Call>)
    ensures (TimevalToDuration(os.rusage.ru_utime).Err? || TimevalToDuration(os.rusage.ru_stime).Err?)
              ==> r == Err(TimeConversion) && trace == []
    ensures TimevalToDuration(os.rusage.ru_utime).Ok? && TimevalToDuration(os.rusage.ru_stime).Ok? ==>
              && |trace| > 0 && trace[0] == Read(readFd)
              && (os.output.None? ==> r == Err(OutputRead) && trace[1..] == [Close(readFd)])
              && (os.output.Some? && os.tags.None? ==>
                    r == Err(TagExtraction) && trace[1..] == [ExtractTags(os.output.value), Close(readFd)])
              && (os.output.Some? && os.tags.Some? ==>
                    && trace[1..] == [ExtractTags(os.output.value), Echo(os.output.value), Close(readFd)]
                    && r.Ok?
                    && r.value.0.status_code == os.status
                    && TotalNanos(r.value.0.user_time)
                         == os.rusage.ru_utime.tv_sec * NANOS_PER_SEC + os.rusage.ru_utime.tv_usec * NANOS_PER_MICRO
                    && TotalNanos(r.value.0.system_time)
                         == os.rusage.ru_stime.tv_sec * NANOS_PER_SEC + os.rusage.ru_stime.tv_usec * NANOS_PER_MICRO
                    && r.value.0.real_time == realTime
                    && r.value.1 == os.tags.value)
  {
    trace := [];
    var userTime := TimevalToDuration(os.rusage.ru_utime);
    if userTime.Err? {
      return Err(userTime.error), trace;
    }
    var systemTime := TimevalToDuration(os.rusage.ru_stime);
    if systemTime.Err? {
      return Err(systemTime.error), trace;
    }

    // the read end is owned by a File from here on, and closed when it is dropped
    trace := [Read(readFd)];
    if os.output.None? {
      trace := trace + [Close(readFd)];
      return Err(OutputRead), trace;
    }
    var output := os.output.value;
    trace := trace + [ExtractTags(output)];
    if os.tags.None? {
      trace := trace + [Close(readFd)];
      return Err(TagExtraction), trace;
    }
    trace := trace + [Echo(output), Close(readFd)];
    r := Ok((ExecutionResult(userTime.value, systemTime.value, realTime, os.status), os.tags.value));
  }

  /**
   * `execute_and_measure`: spawn `commandAndFlags` with the environment `env`,
   * wait for it and report its times, exit status and tags.
   */
  method ExecuteAndMeasure(commandAndFlags: seq<string>, env: seq<(string, string)>, os: UnixOs)
    returns (r: Result<(ExecutionResult, Tags), ExecError>, trace: seq<Call>)
    // the empty command and NUL bytes are rejected before any call is made
    ensures commandAndFlags == [] ==> r == Err(EmptyCommand) && trace == []
    ensures commandAndFlags != [] && HasNul(commandAndFlags) ==> r == Err(InvalidCommandEncoding) && trace == []
    ensures (commandAndFlags != [] && !HasNul(commandAndFlags) && EnvHasNul(env))
              ==> r == Err(InvalidEnvEncoding) && trace == []
    // a failed preparation call ends the run at that call
    ensures (ValidInputs(commandAndFlags, env) && !SetupSucceeds(os))
              ==> r.Err? && r.error.SetupFailed? && trace == SetupCalls(os)[..SetupCallsMade(os)]
    // the clock starts just before the spawn; the write end of the pipe is closed just after it,
    // whatever the spawn returned, and only then is its result checked
    ensures ValidInputs(commandAndFlags, env) && SetupSucceeds(os) ==>
              && |trace| >= 8
              && trace[..8] == SetupCalls(os) + [StartClock, SpawnCall(commandAndFlags, env), Close(os.writeFd)]
              && (os.spawn != 0 ==> r == Err(SpawnFailed(os.spawn)) && |trace| == 8)
    // the clock stops right after wait4 returns, before its result is checked
    ensures ValidInputs(commandAndFlags, env) && SetupSucceeds(os) && os.spawn == 0 ==>
              && |trace| >= 10
              && trace[8..10] == [Wait4(os.pid), StopClock]
              && (!WaitAccepted(os.wait) ==> r == Err(WaitFailed(os.wait)) && |trace| == 10)
    // the times are converted before the output is read; a negative field ends the run
    ensures ValidInputs(commandAndFlags, env) && SetupSucceeds(os) && os.spawn == 0 && WaitAccepted(os.wait) ==>
              if TimevalToDuration(os.rusage.ru_utime).Err? || TimevalToDuration(os.rusage.ru_stime).Err?
              then r == Err(TimeConversion) && |trace| == 10
              else
                && |trace| > 10 && trace[10] == Read(os.readFd)
                && (os.output.None? ==> r == Err(OutputRead) && trace[11..] == [Close(os.readFd)])
                && (os.output.Some? && os.tags.None? ==>
                      r == Err(TagExtraction) && trace[11..] == [ExtractTags(os.output.value), Close(os.readFd)])
                && (os.output.Some? && os.tags.Some? ==>
                      && trace[11..] == [ExtractTags(os.output.value), Echo(os.output.value), Close(os.readFd)]
                      && r.Ok?
                      && r.value.0.status_code == os.status
                      && TotalNanos(r.value.0.user_time)
                           == os.rusage.ru_utime.tv_sec * NANOS_PER_SEC + os.rusage.ru_utime.tv_usec * NANOS_PER_MICRO
                      && TotalNanos(r.value.0.system_time)
                           == os.rusage.ru_stime.tv_sec * NANOS_PER_SEC + os.rusage.ru_stime.tv_usec * NANOS_PER_MICRO
                      && r.value.0.real_time == os.elapsed
                      && r.value.1 == os.tags.value)
  {
    trace := [];
    var spawn := PrepareSpawn(commandAndFlags, env);
    if spawn.Err? {
      return Err(spawn.error), trace;
    }
    var pipeFds := new int[2];
    var setupError;
    setupError, trace := Setup(os, pipeFds);
    if setupError.Some? {
      return Err(setupError.value), trace;
    }

    trace := trace + [StartClock, spawn.value];
    var spawnResult := os.spawn;
    trace := trace + [Close(pipeFds[1])];
    if spawnResult != 0 {
      return Err(SpawnFailed(spawnResult)), trace;
    }

    trace := trace + [Wait4(os.pid)];
    var waitResult := os.wait;
    trace := trace + [StopClock];
    var realTime := os.elapsed;
    if !WaitAccepted(waitResult) {
      return Err(WaitFailed(waitResult)), trace;
    }
    assert |trace| == 10;

    var rest;
    r, rest := Finish(os, pipeFds[0], realTime);
    trace := trace + rest;
  }
}
