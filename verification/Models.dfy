/** The shared domain values: events, queries and instants. */
module Models {

  datatype Option<+T> = None | Some(value: T)

  /** An instant, as nanoseconds since the Unix epoch. */
  type Time = int

  /** Go's zero time.Time: midnight UTC on 1 January of year 1. */
  const ZERO_TIME: Time := -62135596800 * 1_000_000_000

  const SECOND: int := 1_000_000_000
  const MINUTE: int := 60 * SECOND
  const HOUR: int := 60 * MINUTE

  datatype BastionEvent = BastionEvent(
    eventId: string,
    traceId: string,
    spanId: string,
    moduleName: string,
    eventType: string,
    severity: string,
    timestamp: Time,
    tenantId: string,
    userId: string,
    requestId: string,
    labels: map<string, string>,
    data: map<string, string>,
    pipelineType: string,
    modulesUsed: seq<string>,
    modulesSkipped: seq<string>,
    durationMs: int,
    status: string,
    signature: string)

  /** The Go zero value of an event: what an unwritten ring slot holds. */
  const ZERO_EVENT := BastionEvent("", "", "", "", "", "", ZERO_TIME, "", "", "", map[], map[], "", [], [], 0, "", "")

  datatype Query = Query(
    traceId: string,
    userId: string,
    tenantId: string,
    moduleName: string,
    severity: string,
    status: string,
    since: Time,
    until: Time)

  /** A query with no field set matches everything. */
  const ANY_QUERY := Query("", "", "", "", "", "", ZERO_TIME, ZERO_TIME)

  /** Go's integer division: the quotient is truncated toward zero. */
  function TruncDiv(a: int, b: int): (r: int)
    requires b > 0
    ensures 0 <= a ==> r * b <= a < r * b + b
    ensures a <= 0 ==> r * b - b < a <= r * b
  {
    if a >= 0 then a / b else -((-a) / b)
  }

  /** Whether `s` begins with `prefix`. */
  predicate HasPrefix(s: string, prefix: string) {
    prefix <= s
  }
}
