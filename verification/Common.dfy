/** Values shared by every part of the model: options, results, instants and durations. */
module Common {
  datatype Option<+T> = None | Some(value: T)

  datatype Result<+T, +E> = Ok(value: T) | Err(error: E)

  /** Instants and durations are whole nanoseconds, as in Go's time package. */
  type Instant = int
  type Duration = int

  /** Identifiers stand for UUIDs; a step that makes one must take a value never used before. */
  type Uid = nat

  const SECOND: Duration := 1_000_000_000
  const MINUTE: Duration := 60 * SECOND
  const HOUR: Duration := 60 * MINUTE
  const DAY: Duration := 24 * HOUR

  /** Go's integer division, which truncates toward zero. */
  function TruncatedQuotient(a: int, b: int): (q: int)
    requires b > 0
    ensures a >= 0 ==> q * b <= a < (q + 1) * b
    ensures a < 0 ==> (q - 1) * b < a <= q * b
  {
    if a >= 0 then a / b else -((-a) / b)
  }

  /** The whole number of seconds a duration is stored with: rounded up, and never less than one. */
  function DurationSeconds(duration: Duration): (seconds: int)
    ensures seconds >= 1
    ensures duration > 0 ==> (seconds - 1) * SECOND < duration <= seconds * SECOND
    ensures duration <= 0 ==> seconds == 1
  {
    var whole := TruncatedQuotient(duration, SECOND);
    var rounded := if duration != whole * SECOND then whole + 1 else whole;
    if rounded < 1 then 1 else rounded
  }
}
