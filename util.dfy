/** The clock and sleep utility: conversions between a count of microseconds
    and a POSIX `struct timespec`. The sleep and clock system calls themselves
    are foreign; what is modelled is the arithmetic around them. */
module Util {
  import opened CTypes

  const MICROS_PER_SEC: int := 1000 * 1000
  const NANOS_PER_MICRO: int := 1000
  const NANOS_PER_SEC: int := 1000 * 1000 * 1000

  /** The largest `tv_sec` for which the signed 64-bit microsecond sum in
      UtilSystemTime cannot overflow (with `tv_nsec / 1000` at most 999999). */
  const MAX_CLOCK_SECONDS: int := 9223372036853

  datatype Timespec = Timespec(sec: int, nsec: int)

  /** A timespec as `timespec_get` delivers it: normalised nanoseconds, and
      seconds small enough for the microsecond conversion. */
  predicate ClockReading(ts: Timespec)
  {
    0 <= ts.sec <= MAX_CLOCK_SECONDS && 0 <= ts.nsec < NANOS_PER_SEC
  }

  /** The timespec UtilSleep builds from a microsecond count. */
  function MicrosToTimespec(micros: u32): (ts: Timespec)
    ensures 0 <= ts.sec && 0 <= ts.nsec < NANOS_PER_SEC
    ensures ts.nsec % NANOS_PER_MICRO == 0
    ensures ts.sec * MICROS_PER_SEC <= micros < (ts.sec + 1) * MICROS_PER_SEC
  {
    Timespec(micros / MICROS_PER_SEC, (micros % MICROS_PER_SEC) * NANOS_PER_MICRO)
  }

  /** UtilSleep(micros): the duration it asks the system to sleep for, or None
      when it does not sleep at all. */
  function SleepRequest(micros: u32): (r: Option<Timespec>)
    ensures r.None? <==> micros == 0
    ensures r.Some? ==> r.value == MicrosToTimespec(micros)
  {
    if micros > 0 then Some(MicrosToTimespec(micros)) else None
  }

  /** UtilSystemTime: `reading` is what `timespec_get` stored, or None when it
      reported failure. */
  function SystemTime(reading: Option<Timespec>): (r: u64)
    requires reading.Some? ==> ClockReading(reading.value)
    ensures reading.None? ==> r == 0
    ensures reading.Some? ==> r / MICROS_PER_SEC == reading.value.sec
    ensures reading.Some? ==> r % MICROS_PER_SEC == reading.value.nsec / NANOS_PER_MICRO
  {
    match reading
    case None => 0
    case Some(ts) => ts.sec * MICROS_PER_SEC + ts.nsec / NANOS_PER_MICRO
  }

  /** Converting a sleep duration back with the clock formula gives the
      microsecond count again. */
  lemma SleepRoundTrip(micros: u32)
    requires micros > 0
    ensures SleepRequest(micros).Some?
    ensures ClockReading(SleepRequest(micros).value)
    ensures SystemTime(SleepRequest(micros)) == micros
  {
  }

  /** The clock formula only reads whole microseconds: two readings that
      differ below one microsecond give the same time. */
  lemma SystemTimeIgnoresSubMicros(a: Timespec, b: Timespec)
    requires ClockReading(a) && ClockReading(b)
    requires a.sec == b.sec && a.nsec / NANOS_PER_MICRO == b.nsec / NANOS_PER_MICRO
    ensures SystemTime(Some(a)) == SystemTime(Some(b))
  {
  }

  /** The clock formula is monotone in the reading. */
  lemma SystemTimeMonotone(a: Timespec, b: Timespec)
    requires ClockReading(a) && ClockReading(b)
    requires a.sec < b.sec || (a.sec == b.sec && a.nsec <= b.nsec)
    ensures SystemTime(Some(a)) <= SystemTime(Some(b))
  {
  }
}
