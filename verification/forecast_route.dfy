/**
 * The forecast proxy (app/api/forecast/route.ts): after the guard clauses it
 * asks OpenWeather's One Call endpoint and keeps the first 12 hourly and the
 * first 7 daily entries, with times converted from seconds to milliseconds.
 */
module ForecastRoute {
  import opened Wrappers
  import opened Http
  import Lists

  const KeyMissing := "OPENWEATHER_API_KEY missing"
  const HourlyLimit := 12
  const DailyLimit := 7

  /** `weather[0]` of an entry: its `main` and `icon`. */
  datatype Condition = Condition(main: Option<string>, icon: Option<string>)

  /** One hourly entry of the upstream reply. */
  datatype HourIn = HourIn(dt: int, weather: Option<seq<Condition>>)

  /** One daily entry of the upstream reply; `min`/`max` are `temp.min`/`temp.max`, already rounded. */
  datatype DayIn = DayIn(dt: int, min: Option<int>, max: Option<int>, weather: Option<seq<Condition>>)

  /** The One Call JSON: `hourly` and `daily`, either of which may be missing. */
  datatype OneCall = OneCall(hourly: Option<seq<HourIn>>, daily: Option<seq<DayIn>>)

  datatype HourOut = HourOut(ts: int, main: Option<string>, icon: Option<string>)
  datatype DayOut = DayOut(ts: int, min: Option<int>, max: Option<int>, main: Option<string>, icon: Option<string>)
  datatype ForecastBody = ForecastBody(hourly: seq<HourOut>, daily: seq<DayOut>, ts: int)

  /** `x.weather?.[0]`, absent when there is no entry. */
  function FirstCondition(weather: Option<seq<Condition>>): (c: Condition)
    ensures weather.Some? && |weather.value| > 0 ==> c == weather.value[0]
    ensures weather.None? || |weather.value| == 0 ==> c == Condition(None, None)
  {
    if weather.Some? && |weather.value| > 0 then weather.value[0] else Condition(None, None)
  }

  /** One hourly entry reshaped: seconds become milliseconds. */
  function Hour(h: HourIn): (o: HourOut)
    ensures o.ts == h.dt * 1000 && o.main == FirstCondition(h.weather).main && o.icon == FirstCondition(h.weather).icon
  {
    var c := FirstCondition(h.weather);
    HourOut(h.dt * 1000, c.main, c.icon)
  }

  /** One daily entry reshaped. */
  function Day(d: DayIn): (o: DayOut)
    ensures o.ts == d.dt * 1000 && o.min == d.min && o.max == d.max
    ensures o.main == FirstCondition(d.weather).main && o.icon == FirstCondition(d.weather).icon
  {
    var c := FirstCondition(d.weather);
    DayOut(d.dt * 1000, d.min, d.max, c.main, c.icon)
  }

  /** `(j.hourly ?? []).slice(0, 12).map(...)`. */
  function Hourly(hourly: Option<seq<HourIn>>): (hs: seq<HourOut>)
    ensures var xs := hourly.GetOr([]);
            |hs| == Lists.Min(|xs|, HourlyLimit) &&
            forall k :: 0 <= k < |hs| ==> hs[k] == Hour(xs[k])
  {
    var xs := Lists.Take(hourly.GetOr([]), HourlyLimit);
    seq(|xs|, k requires 0 <= k < |xs| => Hour(xs[k]))
  }

  /** `(j.daily ?? []).slice(0, 7).map(...)`. */
  function Daily(daily: Option<seq<DayIn>>): (ds: seq<DayOut>)
    ensures var xs := daily.GetOr([]);
            |ds| == Lists.Min(|xs|, DailyLimit) &&
            forall k :: 0 <= k < |ds| ==> ds[k] == Day(xs[k])
  {
    var xs := Lists.Take(daily.GetOr([]), DailyLimit);
    seq(|xs|, k requires 0 <= k < |xs| => Day(xs[k]))
  }

  /** `GET`, with the upstream response and the clock given. */
  function Get(lat: Option<string>, lon: Option<string>, key: Option<string>, res: Upstream<OneCall>, now: int): (r: Reply<ForecastBody>)
    ensures Guard(lat, lon, key, KeyMissing).Some? ==> r == Refuse(Guard(lat, lon, key, KeyMissing).value)
    ensures r.Ok? <==> Truthy(lat) && Truthy(lon) && Truthy(key) && res.Responded? && res.ok && res.json.Some?
    ensures r.Ok? ==>
              r.body.hourly == Hourly(res.json.value.hourly) &&
              r.body.daily == Daily(res.json.value.daily) &&
              r.body.ts == now
    ensures Guard(lat, lon, key, KeyMissing).None? && res.Responded? && !res.ok ==>
              r == Fail(502, ErrorBody(UpstreamError, Some(res.text)))
    ensures Guard(lat, lon, key, KeyMissing).None? && (res.Rejected? || (res.ok && res.json.None?)) ==>
              r == ServerFail()
    ensures r.Fail? && r.status == 502 ==> res.Responded? && r.err == ErrorBody(UpstreamError, Some(res.text))
    ensures r.Fail? ==> r.status in {400, 500, 502}
  {
    match Guard(lat, lon, key, KeyMissing)
    case Some(f) => Refuse(f)
    case None =>
      match res
      case Rejected => ServerFail()
      case Responded(ok, text, json) =>
        if !ok then Fail(502, ErrorBody(UpstreamError, Some(text)))
        else if json.None? then ServerFail()
        else Ok(ForecastBody(Hourly(json.value.hourly), Daily(json.value.daily), now))
  }

  /** The reply never holds more than 12 hours or 7 days, and holds all of them when fewer come back. */
  lemma ReplyBounds(lat: Option<string>, lon: Option<string>, key: Option<string>, res: Upstream<OneCall>, now: int)
    requires Get(lat, lon, key, res, now).Ok?
    ensures var b := Get(lat, lon, key, res, now).body;
            var j := res.json.value;
            |b.hourly| <= HourlyLimit && |b.daily| <= DailyLimit &&
            (|j.hourly.GetOr([])| <= HourlyLimit ==> |b.hourly| == |j.hourly.GetOr([])|) &&
            (|j.daily.GetOr([])| <= DailyLimit ==> |b.daily| == |j.daily.GetOr([])|)
  {
  }

  /**
   * Only the first 12 hours and 7 days of the upstream reply reach the
   * client: two replies that agree on those give the same forecast lists.
   */
  lemma OnlyLeadingEntriesMatter(h1: seq<HourIn>, h2: seq<HourIn>, d1: seq<DayIn>, d2: seq<DayIn>)
    requires Lists.Take(h1, HourlyLimit) == Lists.Take(h2, HourlyLimit)
    requires Lists.Take(d1, DailyLimit) == Lists.Take(d2, DailyLimit)
    ensures Hourly(Some(h1)) == Hourly(Some(h2))
    ensures Daily(Some(d1)) == Daily(Some(d2))
  {
  }
}
