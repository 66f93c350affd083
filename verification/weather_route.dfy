/**
 * The current-weather proxy (app/api/weather/route.ts): after the guard
 * clauses it asks OpenWeather for the current weather and the air quality at
 * once, and shapes both into one reply with an AQI grade.
 */
module WeatherRoute {
  import opened Wrappers
  import opened Http

  const KeyMissing := "OPENWEATHER_API_KEY missing"
  const UnknownLabel := "알 수 없음"
  const UnknownColor := "#9ca3af"

  /** An AQI grade as the page shows it. */
  datatype Grade = Grade(text: string, color: string)

  /** `aqiLabel`: OpenWeather's 1–5 air-quality index to a Korean label and a colour. */
  function AqiLabel(n: Option<int>): (g: Grade)
    ensures (g.text == UnknownLabel) <==> !(n.Some? && 1 <= n.value <= 5)
    ensures (g.color == UnknownColor) <==> !(n.Some? && 1 <= n.value <= 5)
  {
    match n
    case Some(1) => Grade("좋음", "#34d399")
    case Some(2) => Grade("보통", "#a3e635")
    case Some(3) => Grade("민감군 나쁨", "#f59e0b")
    case Some(4) => Grade("나쁨", "#f97316")
    case Some(5) => Grade("매우 나쁨", "#ef4444")
    case _ => Grade(UnknownLabel, UnknownColor)
  }

  /** The five grades are told apart by label and by colour alike. */
  lemma GradesDistinct(a: int, b: int)
    requires 1 <= a <= 5 && 1 <= b <= 5 && a != b
    ensures AqiLabel(Some(a)).text != AqiLabel(Some(b)).text
    ensures AqiLabel(Some(a)).color != AqiLabel(Some(b)).color
  {
  }

  /** `current.weather[i]`: fields the route reads from one condition entry. */
  datatype Condition = Condition(description: Option<string>, main: Option<string>, icon: Option<string>)

  /** The current-weather JSON: `name`, `main.humidity`, `weather`. */
  datatype CurrentJson = CurrentJson(name: Option<string>, humidity: Option<int>, weather: Option<seq<Condition>>)

  /** The air-pollution JSON: `list`, each entry reduced to its `main.aqi`. */
  datatype AirJson = AirJson(list: Option<seq<Option<int>>>)

  datatype Current = Current(humidity: Option<int>, description: string, main: string, icon: string)
  datatype Aqi = Aqi(value: Option<int>, text: string, color: string)
  datatype WeatherBody = WeatherBody(city: Option<string>, current: Current, aqi: Aqi, ts: int)

  /** `current.weather?.[0] ?? {}`. */
  function FirstCondition(cur: CurrentJson): (c: Condition)
    ensures cur.weather.Some? && |cur.weather.value| > 0 ==> c == cur.weather.value[0]
    ensures cur.weather.None? || |cur.weather.value| == 0 ==> c == Condition(None, None, None)
  {
    if cur.weather.Some? && |cur.weather.value| > 0 then cur.weather.value[0] else Condition(None, None, None)
  }

  /** `air?.list?.[0]?.main?.aqi ?? null`. */
  function FirstAqi(air: AirJson): (n: Option<int>)
    ensures air.list.Some? && |air.list.value| > 0 ==> n == air.list.value[0]
    ensures air.list.None? || |air.list.value| == 0 ==> n.None?
  {
    if air.list.Some? && |air.list.value| > 0 then air.list.value[0] else None
  }

  /** The 200 body built from the two upstream payloads. */
  function Shape(cur: CurrentJson, air: AirJson, now: int): (b: WeatherBody)
    ensures b.city == cur.name && b.ts == now && b.current.humidity == cur.humidity
    ensures b.current.description == FirstCondition(cur).description.GetOr("")
    ensures b.current.main == FirstCondition(cur).main.GetOr("")
    ensures b.current.icon == FirstCondition(cur).icon.GetOr("")
    ensures b.aqi.value == FirstAqi(air)
    ensures Grade(b.aqi.text, b.aqi.color) == AqiLabel(b.aqi.value)
  {
    var w0 := FirstCondition(cur);
    var value := FirstAqi(air);
    var g := AqiLabel(value);
    WeatherBody(cur.name,
                Current(cur.humidity, w0.description.GetOr(""), w0.main.GetOr(""), w0.icon.GetOr("")),
                Aqi(value, g.text, g.color),
                now)
  }

  /** `GET`, with the two upstream responses and the clock given. */
  function Get(lat: Option<string>, lon: Option<string>, key: Option<string>,
               current: Upstream<CurrentJson>, air: Upstream<AirJson>, now: int): (r: Reply<WeatherBody>)
    ensures Guard(lat, lon, key, KeyMissing).Some? ==> r == Refuse(Guard(lat, lon, key, KeyMissing).value)
    ensures r.Ok? <==>
              Truthy(lat) && Truthy(lon) && Truthy(key) &&
              current.Responded? && current.ok && current.json.Some? &&
              air.Responded? && air.ok && air.json.Some?
    ensures r.Ok? ==> r.body == Shape(current.json.value, air.json.value, now)
    ensures Guard(lat, lon, key, KeyMissing).None? && current.Responded? && air.Responded? &&
            (!current.ok || !air.ok) ==>
              r == Fail(502, ErrorBody(UpstreamError, Some(if !current.ok then current.text else air.text)))
    ensures Guard(lat, lon, key, KeyMissing).None? &&
            (current.Rejected? || air.Rejected? ||
             (current.ok && air.ok && (current.json.None? || air.json.None?))) ==>
              r == ServerFail()
    ensures r.Fail? && r.status == 502 ==>
              current.Responded? && air.Responded? &&
              r.err == ErrorBody(UpstreamError, Some(if !current.ok then current.text else air.text))
    ensures r.Fail? ==> r.status in {400, 500, 502}
  {
    match Guard(lat, lon, key, KeyMissing)
    case Some(f) => Refuse(f)
    case None =>
      if current.Rejected? || air.Rejected? then ServerFail()
      else if !current.ok || !air.ok then
        Fail(502, ErrorBody(UpstreamError, Some(if current.ok then air.text else current.text)))
      else if current.json.None? || air.json.None? then ServerFail()
      else Ok(Shape(current.json.value, air.json.value, now))
  }

  /** When both upstreams fail, the detail is the current-weather response's text. */
  lemma BothFailedReportsCurrent(lat: string, lon: string, key: string,
                                 current: Upstream<CurrentJson>, air: Upstream<AirJson>, now: int)
    requires lat != "" && lon != "" && key != ""
    requires current.Responded? && air.Responded? && !current.ok && !air.ok
    ensures Get(Some(lat), Some(lon), Some(key), current, air, now) ==
            Fail(502, ErrorBody(UpstreamError, Some(current.text)))
  {
  }

  /** A reply without condition entries carries empty strings, never missing fields. */
  lemma NoConditionGivesEmptyStrings(cur: CurrentJson, air: AirJson, now: int)
    requires cur.weather.None? || cur.weather.value == []
    ensures var b := Shape(cur, air, now);
            b.current.description == "" && b.current.main == "" && b.current.icon == ""
  {
  }

  /** No air-quality entry means an unknown grade with a null value. */
  lemma NoAirEntryUnknownGrade(cur: CurrentJson, air: AirJson, now: int)
    requires air.list.None? || air.list.value == []
    ensures var b := Shape(cur, air, now);
            b.aqi == Aqi(None, UnknownLabel, UnknownColor)
  {
  }
}
