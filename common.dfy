/** Small value types shared by every part of the model: optional values,
    results, Go's int64, and the instants produced by Go's time package. */
module Common {

  /** A nil-able Go field: either nil or a value. */
  datatype Option<+T> = None | Some(value: T)

  /** A Go `(value, error)` pair where exactly one side is meaningful. */
  datatype Result<+T, +E> = Ok(value: T) | Err(error: E)

  /** Go's int64; the JSON decoder refuses numbers outside this range. */
  newtype int64 = x: int | -0x8000_0000_0000_0000 <= x < 0x8000_0000_0000_0000

  const NANOS_PER_MILLI: int := 1_000_000

  /** An instant, as nanoseconds since the Unix epoch (Go's time.Time without
      location or monotonic reading). Unbounded, so no instant overflows. */
  datatype Time = Time(unixNanos: int)

  /** Go's time.UnixMilli(ms): the instant ms milliseconds after the epoch. */
  function UnixMilli(ms: int64): (t: Time)
    ensures t.unixNanos % NANOS_PER_MILLI == 0
  {
    Time(ms as int * NANOS_PER_MILLI)
  }

  /** Go's Time.UnixMilli(): whole milliseconds since the epoch, rounded
      towards the past (Go splits an instant into floor seconds and a
      non-negative nanosecond part, which is Euclidean division here). */
  function MillisOf(t: Time): int
  {
    t.unixNanos / NANOS_PER_MILLI
  }

  /** Converting a millisecond timestamp to an instant loses nothing. */
  lemma UnixMilliRoundTrip(ms: int64)
    ensures MillisOf(UnixMilli(ms)) == ms as int
  {
  }

  /** The message type tags both WebSocket handlers switch on. */
  const START_TYPE: string := "start"
  const STOP_TYPE: string := "stop"
  const LOCATION_UPDATE_TYPE: string := "location_update"
}
