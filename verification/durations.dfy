/**
 * The part of Rust's `std::time::Duration` the measurement code relies on: a
 * `u64` count of whole seconds and a nanosecond part below one second, the
 * `from_secs`/`from_micros` constructors, and the checked addition and
 * subtraction behind the `+` and `-` operators (which panic where the checked
 * form gives `None`).
 */
module Durations {
  import opened Ints
  import opened Wrappers

  const NANOS_PER_SEC: nat := 1_000_000_000
  const NANOS_PER_MICRO: nat := 1_000
  const MICROS_PER_SEC: nat := 1_000_000

  /** The messages `+` and `-` on Durations panic with where the checked forms give `None`. */
  const ADD_OVERFLOW: string := "overflow when adding durations"
  const SUB_OVERFLOW: string := "overflow when subtracting durations"

  type Nanos = n: nat | n < 1_000_000_000

  datatype Duration = Duration(secs: u64, nanos: Nanos)

  /** The largest total a Duration can hold, plus one. */
  const MAX_TOTAL_NANOS: nat := U64_LIMIT * NANOS_PER_SEC

  /** The length of time a Duration stands for, in nanoseconds. */
  function TotalNanos(d: Duration): (n: nat)
    ensures n < MAX_TOTAL_NANOS
  {
    d.secs * NANOS_PER_SEC + d.nanos
  }

  /** Two Durations are equal exactly when they stand for the same length of time. */
  lemma TotalNanosInjective(a: Duration, b: Duration)
    requires TotalNanos(a) == TotalNanos(b)
    ensures a == b
  {
    // whole seconds dominate: one more second outweighs any nanosecond part
    forall x: nat, y: nat | x < y
      ensures x * NANOS_PER_SEC + NANOS_PER_SEC <= y * NANOS_PER_SEC
    {
    }
  }

  /** `Duration::from_secs`. */
  function FromSecs(secs: u64): (d: Duration)
    ensures TotalNanos(d) == secs * NANOS_PER_SEC
  {
    Duration(secs, 0)
  }

  /** `Duration::from_micros`: whole seconds, and the remaining microseconds as nanoseconds. */
  function FromMicros(micros: u64): (d: Duration)
    ensures TotalNanos(d) == micros * NANOS_PER_MICRO
  {
    Duration(micros / MICROS_PER_SEC, (micros % MICROS_PER_SEC) * NANOS_PER_MICRO)
  }

  /**
   * `Duration::checked_add`: add the seconds (failing on `u64` overflow), add
   * the nanoseconds, and carry one second when they reach a full second.
   */
  function CheckedAdd(a: Duration, b: Duration): (r: Option<Duration>)
    ensures r.Some? <==> TotalNanos(a) + TotalNanos(b) < MAX_TOTAL_NANOS
    ensures r.Some? ==> TotalNanos(r.value) == TotalNanos(a) + TotalNanos(b)
  {
    var secs := a.secs + b.secs;
    if secs >= U64_LIMIT then None
    else
      var nanos := a.nanos + b.nanos;
      if nanos >= NANOS_PER_SEC then
        if secs + 1 >= U64_LIMIT then None
        else Some(Duration(secs + 1, nanos - NANOS_PER_SEC))
      else Some(Duration(secs, nanos))
  }

  /**
   * `Duration::checked_sub`: subtract the seconds (failing below zero), and
   * borrow one second when the nanoseconds of `b` exceed those of `a`.
   */
  function CheckedSub(a: Duration, b: Duration): (r: Option<Duration>)
    ensures r.Some? <==> TotalNanos(a) >= TotalNanos(b)
    ensures r.Some? ==> TotalNanos(r.value) == TotalNanos(a) - TotalNanos(b)
  {
    if a.secs < b.secs then None
    else
      var secs := a.secs - b.secs;
      if a.nanos >= b.nanos then Some(Duration(secs, a.nanos - b.nanos))
      else if secs == 0 then None
      else Some(Duration(secs - 1, a.nanos + NANOS_PER_SEC - b.nanos))
  }

  /** Subtraction is the inverse of addition. */
  lemma {:induction false} SubUndoesAdd(a: Duration, b: Duration)
    requires CheckedAdd(a, b).Some?
    ensures CheckedSub(CheckedAdd(a, b).value, b) == Some(a)
  {
    var r := CheckedSub(CheckedAdd(a, b).value, b);
    TotalNanosInjective(r.value, a);
  }
}
