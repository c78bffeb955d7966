/**
 * What both platform backends return: the measured `ExecutionResult`, the tag
 * map, and the kinds of error a run can end with.
 */
module Execution {
  import opened Ints
  import opened Durations
  import opened Wrappers

  datatype ExecutionResult = ExecutionResult(
    user_time: Duration,
    system_time: Duration,
    real_time: Duration,
    status_code: i64)

  /** Tag keys to tag values. */
  type Tags = map<string, string>

  datatype ExecError =
    | EmptyCommand              // "command can not be empty for benchmarking"
    | InvalidCommandEncoding    // an argument holds a NUL byte
    | InvalidEnvEncoding        // an environment entry holds a NUL byte
    | SetupFailed(call: string) // a bare `ensure!` on one of the spawn preparation calls
    | SpawnFailed(lastError: int)
    | WaitFailed(lastError: int)
    | TimeConversion            // a negative `timeval` field
    | OutputRead                // the pipe could not be read, or its bytes are not UTF-8
    | TagExtraction             // the captured output holds malformed tags
    | Panicked(panic: Panic)    // a panic, which ends the program rather than returning
}
