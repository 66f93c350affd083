/**
 * What the three Next.js proxy routes (app/api/weather, app/api/forecast,
 * app/api/geocode) share: the JSON reply with its status, the upstream
 * response as a route sees it, and the guard clauses every route runs first.
 */
module Http {
  import opened Wrappers

  const LatLonRequired := "lat/lon required"
  const UpstreamError := "upstream_error"
  const ServerError := "server_error"

  /** The body of a non-200 reply: `{ error, detail? }`. */
  datatype ErrorBody = ErrorBody(error: string, detail: Option<string>)

  /** `NextResponse.json(body)` (status 200) or `NextResponse.json({ error, detail }, { status })`. */
  datatype Reply<T> = Ok(body: T) | Fail(status: int, err: ErrorBody)
  {
    function Status(): int {
      if Ok? then 200 else status
    }
  }

  /**
   * An upstream `fetch` as the route sees it: the promise rejected, or a
   * response with its `ok` flag, its text, and its body as JSON of the
   * expected shape (`None` when `res.json()` throws).
   */
  datatype Upstream<T> = Rejected | Responded(ok: bool, text: string, json: Option<T>)

  /** The reply of the `catch` block; the exception's message is not modelled. */
  function ServerFail<T>(): Reply<T> {
    Fail(500, ErrorBody(ServerError, None))
  }

  /** A refusal decided before any upstream call: the status and the error body. */
  datatype Refusal = Refusal(status: int, err: ErrorBody)

  /**
   * The guard clauses at the top of every route: `lat` and `lon` must be
   * non-empty query parameters (400), then the API key must be configured
   * (500, with the route's own message). `None` lets the request through.
   */
  function Guard(lat: Option<string>, lon: Option<string>, key: Option<string>, keyMissing: string): (r: Option<Refusal>)
    ensures r.None? <==> Truthy(lat) && Truthy(lon) && Truthy(key)
    ensures !Truthy(lat) || !Truthy(lon) ==> r == Some(Refusal(400, ErrorBody(LatLonRequired, None)))
    ensures Truthy(lat) && Truthy(lon) && !Truthy(key) ==> r == Some(Refusal(500, ErrorBody(keyMissing, None)))
  {
    if !Truthy(lat) || !Truthy(lon) then Some(Refusal(400, ErrorBody(LatLonRequired, None)))
    else if !Truthy(key) then Some(Refusal(500, ErrorBody(keyMissing, None)))
    else None
  }

  /** The reply a route sends for a refusal. */
  function Refuse<T>(f: Refusal): (r: Reply<T>)
    ensures r.Fail? && r.status == f.status && r.err == f.err
  {
    Fail(f.status, f.err)
  }

  /** The coordinates are checked before the key: a missing coordinate is a 400 whatever the configuration. */
  lemma CoordinatesCheckedFirst(lat: Option<string>, lon: Option<string>, k1: Option<string>, k2: Option<string>, msg: string)
    requires !Truthy(lat) || !Truthy(lon)
    ensures Guard(lat, lon, k1, msg) == Guard(lat, lon, k2, msg)
    ensures Guard(lat, lon, k1, msg).value.status == 400
  {
  }
}
