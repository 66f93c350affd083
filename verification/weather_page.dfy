/**
 * The weather page (app/weather/page.tsx): the geolocation status machine,
 * the forecast lists it shows, the location labels built from the geocoding
 * reply, the status hint, and the min/max read from a daily entry.
 */
module WeatherPage {
  import opened Wrappers
  import Text
  import Lists
  import ForecastRoute
  import GeocodeRoute

  datatype Coords = Coords(lat: real, lon: real)

  const Seoul := Coords(37.5665, 126.978)
  /** `GeolocationPositionError.PERMISSION_DENIED`. */
  const PermissionDenied := 1
  const DefaultCity := "서울특별시"
  const HourlyShown := 12
  const DailyShown := 5
  const HintLoading := "현재 위치를 불러오는 중입니다…"
  const HintDenied := "위치 권한이 거부되어, 이전 위치 또는 서울 기준으로 표시 중입니다."
  const HintError := "위치 정보를 가져오지 못해, 이전 위치 또는 서울 기준으로 표시 중입니다."

  datatype LocStatus = Idle | Loading | Ok | Denied | Error

  /** The page's `coords` and `locStatus`. */
  datatype Location = Location(coords: Coords, status: LocStatus)

  const InitialLocation := Location(Seoul, Idle)

  /** What can happen to the location state: a request, or one of the two geolocation callbacks. */
  datatype LocEvent = Request(hasGeolocation: bool) | Position(at: Coords) | GeoError(code: int)

  /**
   * `requestLocation` and its callbacks: without the geolocation API the
   * status becomes `error` at once, otherwise `loading`; a fix moves the
   * coordinates and sets `ok`; an error sets `denied` for a refused
   * permission and `error` for anything else, keeping the coordinates.
   */
  function Step(loc: Location, e: LocEvent): (next: Location)
    ensures !e.Position? ==> next.coords == loc.coords
    ensures next.status == Ok <==> e.Position?
    ensures next.status == Loading <==> e == Request(true)
    ensures next.status == Denied <==> e == GeoError(PermissionDenied)
    ensures e.Position? ==> next.coords == e.at
    ensures next.status != Idle
  {
    match e
    case Request(has) => if !has then loc.(status := Error) else loc.(status := Loading)
    case Position(at) => Location(at, Ok)
    case GeoError(code) => if code == PermissionDenied then loc.(status := Denied) else loc.(status := Error)
  }

  /** The location state after a sequence of events, oldest first. */
  function Run(loc: Location, evs: seq<LocEvent>): Location
    decreases |evs|
  {
    if |evs| == 0 then loc else Step(Run(loc, evs[..|evs| - 1]), evs[|evs| - 1])
  }

  /**
   * What the fallback hints promise: the page always shows Seoul or a
   * position some earlier callback delivered.
   */
  lemma {:induction false} CoordsAreSeoulOrDelivered(evs: seq<LocEvent>)
    ensures var loc := Run(InitialLocation, evs);
            loc.coords == Seoul || Position(loc.coords) in evs
  {
    if |evs| > 0 {
      var init := evs[..|evs| - 1];
      CoordsAreSeoulOrDelivered(init);
      assert evs == init + [evs[|evs| - 1]];
    }
  }

  /** Without a delivered position the page stays on Seoul, whatever the status says. */
  lemma {:induction false} NoFixStaysOnSeoul(evs: seq<LocEvent>)
    requires forall k :: 0 <= k < |evs| ==> !evs[k].Position?
    ensures Run(InitialLocation, evs).coords == Seoul
  {
    if |evs| > 0 {
      NoFixStaysOnSeoul(evs[..|evs| - 1]);
    }
  }

  /** The mount effect alone: one request, then the callback's outcome. */
  lemma MountOutcome(has: bool, outcome: LocEvent)
    requires !outcome.Request?
    ensures !has ==> Run(InitialLocation, [Request(false)]) == Location(Seoul, Error)
    ensures has ==> Run(InitialLocation, [Request(true), outcome]).status in {Ok, Denied, Error}
  {
    assert [Request(true), outcome][..1] == [Request(true)];
    assert [Request(true)][..0] == [];
  }

  /** The hint under the location line. */
  function LocationHint(s: LocStatus): (hint: string)
    ensures hint != "" <==> s in {Loading, Denied, Error}
    ensures s == Denied ==> hint == HintDenied
    ensures s == Error ==> hint == HintError
    ensures s == Loading ==> hint == HintLoading
  {
    match s
    case Loading => HintLoading
    case Denied => HintDenied
    case Error => HintError
    case _ => ""
  }

  /** The three hints are different texts, so the hint tells the status back. */
  lemma HintDeterminesStatus(a: LocStatus, b: LocStatus)
    requires LocationHint(a) == LocationHint(b)
    ensures a == b || (a in {Idle, Ok} && b in {Idle, Ok})
  {
    assert HintLoading[0] != HintDenied[0] && HintLoading[0] != HintError[0];
    assert HintDenied[3] != HintError[3];
  }

  /** `Array.isArray(forecast?.hourly) ? forecast.hourly.slice(0, 12) : []` (`None`: not an array). */
  function HourlyRows<T>(hourly: Option<seq<T>>): (rows: seq<T>)
    ensures |rows| <= HourlyShown
    ensures hourly.None? ==> rows == []
    ensures hourly.Some? ==> |rows| == Lists.Min(|hourly.value|, HourlyShown) && rows == hourly.value[..|rows|]
  {
    match hourly
    case None => []
    case Some(xs) => Lists.Take(xs, HourlyShown)
  }

  /** The same for `daily`, keeping five. */
  function DailyRows<T>(daily: Option<seq<T>>): (rows: seq<T>)
    ensures |rows| <= DailyShown
    ensures daily.None? ==> rows == []
    ensures daily.Some? ==> |rows| == Lists.Min(|daily.value|, DailyShown) && rows == daily.value[..|rows|]
  {
    match daily
    case None => []
    case Some(xs) => Lists.Take(xs, DailyShown)
  }

  /** The route keeps seven days and the page five of them: the page shows the first five upstream days. */
  lemma {:induction false} PageShowsFirstFiveDays(daily: Option<seq<ForecastRoute.DayIn>>)
    ensures var xs := daily.GetOr([]);
            var rows := DailyRows(Some(ForecastRoute.Daily(daily)));
            |rows| == Lists.Min(|xs|, DailyShown) &&
            forall k :: 0 <= k < |rows| ==> rows[k] == ForecastRoute.Day(xs[k])
  {
    var ds := ForecastRoute.Daily(daily);
    var rows := Lists.Take(ds, DailyShown);
    assert forall k :: 0 <= k < |rows| ==> rows[k] == ds[k];
  }

  /** The header label: `geo?.city || '서울특별시'` (`geo` absent while loading or on an error reply). */
  function CityLabel(geo: Option<GeocodeRoute.GeoBody>): (shown: string)
    ensures shown != ""
    ensures geo.Some? && Truthy(geo.value.city) ==> shown == geo.value.city.value
    ensures !(geo.Some? && Truthy(geo.value.city)) ==> shown == DefaultCity
  {
    if geo.Some? && Truthy(geo.value.city) then geo.value.city.value else DefaultCity
  }

  /** The card label: `[geo?.city, geo?.district, geo?.neighborhood].filter(Boolean).join(' ')`. */
  function FullAddressLabel(geo: Option<GeocodeRoute.GeoBody>): (shown: string)
    ensures geo.None? ==> shown == ""
    ensures geo.Some? ==> shown == Text.JoinTruthy([geo.value.city, geo.value.district, geo.value.neighborhood])
    ensures geo.Some? ==>
              shown == Text.Join(Text.Keep(geo.value.city) + Text.Keep(geo.value.district) + Text.Keep(geo.value.neighborhood), ' ')
  {
    match geo
    case None => Text.JoinTruthy([None, None, None])
    case Some(g) =>
      Text.JoinTruthyOfThree(g.city, g.district, g.neighborhood);
      Text.JoinTruthy([g.city, g.district, g.neighborhood])
  }

  /** The page rebuilds exactly the `full` label the geocoding route sends. */
  lemma FullAddressMatchesRoute(j: GeocodeRoute.KakaoJson)
    ensures FullAddressLabel(Some(GeocodeRoute.Shape(j))) == GeocodeRoute.Shape(j).full
  {
  }

  /** Without a region document the header falls back to Seoul and the card label is empty. */
  lemma NoRegionFallsBack(j: GeocodeRoute.KakaoJson)
    requires j.documents.None? || j.documents.value == []
    ensures CityLabel(Some(GeocodeRoute.Shape(j))) == DefaultCity
    ensures FullAddressLabel(Some(GeocodeRoute.Shape(j))) == ""
  {
  }

  /** `temp` of a daily entry when it is an object. */
  datatype TempRange = TempRange(min: Option<int>, max: Option<int>)

  /** The fields of a daily entry the page reads, whichever backend produced it. */
  datatype DailyEntry = DailyEntry(
    dt: Option<int>,
    tempMin: Option<int>, tempMax: Option<int>,
    temp_min: Option<int>, temp_max: Option<int>,
    temp: Option<TempRange>,
    min: Option<int>, max: Option<int>)

  function TempMinOf(d: DailyEntry): Option<int> {
    if d.temp.Some? then d.temp.value.min else None
  }

  function TempMaxOf(d: DailyEntry): Option<int> {
    if d.temp.Some? then d.temp.value.max else None
  }

  /** `d.tempMin ?? d.temp_min ?? d.temp?.min ?? d.min ?? null`. */
  function ShownMin(d: DailyEntry): (m: Option<int>)
    ensures m.None? <==> d.tempMin.None? && d.temp_min.None? && TempMinOf(d).None? && d.min.None?
    ensures d.tempMin.Some? ==> m == d.tempMin
    ensures d.tempMin.None? && d.temp_min.Some? ==> m == d.temp_min
    ensures d.tempMin.None? && d.temp_min.None? && TempMinOf(d).Some? ==> m == TempMinOf(d)
    ensures d.tempMin.None? && d.temp_min.None? && TempMinOf(d).None? ==> m == d.min
  {
    var chain := [d.tempMin, d.temp_min, TempMinOf(d), d.min];
    var m := FirstPresent(chain);
    assert chain[0] == d.tempMin && chain[1] == d.temp_min && chain[2] == TempMinOf(d) && chain[3] == d.min;
    m
  }

  /** `d.tempMax ?? d.temp_max ?? d.temp?.max ?? d.max ?? null`. */
  function ShownMax(d: DailyEntry): (m: Option<int>)
    ensures m.None? <==> d.tempMax.None? && d.temp_max.None? && TempMaxOf(d).None? && d.max.None?
    ensures d.tempMax.Some? ==> m == d.tempMax
    ensures d.tempMax.None? && d.temp_max.Some? ==> m == d.temp_max
    ensures d.tempMax.None? && d.temp_max.None? && TempMaxOf(d).Some? ==> m == TempMaxOf(d)
    ensures d.tempMax.None? && d.temp_max.None? && TempMaxOf(d).None? ==> m == d.max
  {
    var chain := [d.tempMax, d.temp_max, TempMaxOf(d), d.max];
    var m := FirstPresent(chain);
    assert chain[0] == d.tempMax && chain[1] == d.temp_max && chain[2] == TempMaxOf(d) && chain[3] == d.max;
    m
  }

  /** A daily entry of this client's own forecast route, as the page reads its JSON. */
  function FromRoute(o: ForecastRoute.DayOut): DailyEntry {
    DailyEntry(None, None, None, None, None, None, o.min, o.max)
  }

  /**
   * For the route's entries the chain falls through to `min`/`max`, so the
   * page shows the route's rounded values; the entry has no `dt` (the route
   * sends `ts`), which the page uses as row key and date.
   */
  lemma RouteDayShown(o: ForecastRoute.DayOut)
    ensures ShownMin(FromRoute(o)) == o.min && ShownMax(FromRoute(o)) == o.max
    ensures FromRoute(o).dt.None?
  {
  }
}
