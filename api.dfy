/** What the two handlers answer, independent of the HTTP framework. */
module Api {
  import opened Database

  /** Whether each Redis database answers during one request. */
  datatype Net = Net(mappingsUp: bool, limitsUp: bool)

  /** The JSON body of a successful POST /shorten. */
  datatype Response = Response(
    url: string,
    short: string,
    expiry: int,
    rateRemaining: int,
    rateResetMinutes: int)

  /** Every way a request can end. */
  datatype Outcome =
    | Shortened(resp: Response)
    | Redirect(target: string)
    | RateLimited(resetMinutes: int)
    | InvalidURL
    | Disallowed
    | InUse
    | NotFound
    | StorageError

  /** What a handler answers and the databases it leaves behind. */
  datatype Step = Step(out: Outcome, after: State)

  /** The HTTP status each outcome is sent with. */
  function StatusCode(o: Outcome): (code: int)
    ensures 200 <= code < 600
    ensures code < 400 <==> o.Shortened? || o.Redirect?
    ensures code == 503 <==> o.RateLimited? || o.Disallowed?
    ensures o.Shortened? ==> code == 200
    ensures o.Redirect? ==> code == 301
    ensures o.InvalidURL? ==> code == 400
    ensures o.InUse? ==> code == 403
    ensures o.NotFound? ==> code == 404
    ensures o.StorageError? ==> code == 500
  {
    match o
    case Shortened(_) => 200
    case Redirect(_) => 301
    case RateLimited(_) => 503
    case InvalidURL => 400
    case Disallowed => 503
    case InUse => 403
    case NotFound => 404
    case StorageError => 500
  }

  /** `d / time.Nanosecond / time.Minute` for a duration of `secs` seconds:
      whole minutes, Go's integer division truncating toward zero. */
  function WholeMinutes(secs: int): (m: int)
    ensures 0 <= secs ==> 0 <= 60 * m <= secs < 60 * m + 60
    ensures secs < 0 ==> 60 * m - 60 < secs <= 60 * m <= 0
  {
    if secs >= 0 then secs / 60 else -((-secs) / 60)
  }
}
