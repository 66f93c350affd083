/**
 * The reverse-geocoding proxy (app/api/geocode/route.ts): after the guard
 * clauses it asks Kakao for the region of a coordinate and replies with the
 * three administrative levels of the first document and their joined label.
 */
module GeocodeRoute {
  import opened Wrappers
  import opened Http
  import Text

  const KeyMissing := "KAKAO_REST_API_KEY missing"
  const KakaoError := "kakao_error"

  /** One Kakao region document: `region_1depth_name` … `region_3depth_name`. */
  datatype Region = Region(depth1: Option<string>, depth2: Option<string>, depth3: Option<string>)

  /** The Kakao JSON: `documents`, possibly missing. */
  datatype KakaoJson = KakaoJson(documents: Option<seq<Region>>)

  datatype GeoBody = GeoBody(city: Option<string>, district: Option<string>, neighborhood: Option<string>, full: string)

  /** `json.documents?.[0]`, each level `?? null`; `full` joins the truthy levels with spaces. */
  function Shape(j: KakaoJson): (b: GeoBody)
    ensures j.documents.None? || j.documents.value == [] ==> b == GeoBody(None, None, None, "")
    ensures j.documents.Some? && j.documents.value != [] ==>
              var d := j.documents.value[0];
              b.city == d.depth1 && b.district == d.depth2 && b.neighborhood == d.depth3
    ensures b.full == Text.JoinTruthy([b.city, b.district, b.neighborhood])
    ensures b.full == Text.Join(Text.Keep(b.city) + Text.Keep(b.district) + Text.Keep(b.neighborhood), ' ')
  {
    var region := if j.documents.Some? && |j.documents.value| > 0 then j.documents.value[0] else Region(None, None, None);
    Text.JoinTruthyOfThree(region.depth1, region.depth2, region.depth3);
    GeoBody(region.depth1, region.depth2, region.depth3,
            Text.JoinTruthy([region.depth1, region.depth2, region.depth3]))
  }

  /** `GET`, with Kakao's response given. */
  function Get(lat: Option<string>, lon: Option<string>, key: Option<string>, res: Upstream<KakaoJson>): (r: Reply<GeoBody>)
    ensures Guard(lat, lon, key, KeyMissing).Some? ==> r == Refuse(Guard(lat, lon, key, KeyMissing).value)
    ensures r.Ok? <==> Truthy(lat) && Truthy(lon) && Truthy(key) && res.Responded? && res.ok && res.json.Some?
    ensures r.Ok? ==> r.body == Shape(res.json.value)
    ensures Guard(lat, lon, key, KeyMissing).None? && res.Responded? && !res.ok ==>
              r == Fail(502, ErrorBody(KakaoError, Some(res.text)))
    ensures Guard(lat, lon, key, KeyMissing).None? && (res.Rejected? || (res.ok && res.json.None?)) ==>
              r == ServerFail()
    ensures r.Fail? && r.status == 502 ==> res.Responded? && r.err == ErrorBody(KakaoError, Some(res.text))
    ensures r.Fail? ==> r.status in {400, 500, 502}
  {
    match Guard(lat, lon, key, KeyMissing)
    case Some(f) => Refuse(f)
    case None =>
      match res
      case Rejected => ServerFail()
      case Responded(ok, text, json) =>
        if !ok then Fail(502, ErrorBody(KakaoError, Some(text)))
        else if json.None? then ServerFail()
        else Ok(Shape(json.value))
  }

  /** A full answer is "city district neighborhood"; with no level present the label is empty. */
  lemma FullLabel(j: KakaoJson)
    ensures var b := Shape(j);
            (Truthy(b.city) && Truthy(b.district) && Truthy(b.neighborhood) ==>
               b.full == b.city.value + " " + b.district.value + " " + b.neighborhood.value) &&
            (b.full == "" <==> !Truthy(b.city) && !Truthy(b.district) && !Truthy(b.neighborhood))
  {
    var b := Shape(j);
    var parts := [b.city, b.district, b.neighborhood];
    assert (forall k :: 0 <= k < |parts| ==> !Truthy(parts[k])) <==>
           !Truthy(parts[0]) && !Truthy(parts[1]) && !Truthy(parts[2]);
    if Truthy(b.city) && Truthy(b.district) && Truthy(b.neighborhood) {
      assert parts == [Some(b.city.value), Some(b.district.value), Some(b.neighborhood.value)];
      Text.JoinTruthyThree(b.city.value, b.district.value, b.neighborhood.value);
    }
  }

  /** Levels without spaces can be read back from the label by splitting on spaces. */
  lemma FullLabelSplits(j: KakaoJson)
    requires var b := Shape(j); Truthy(b.city) || Truthy(b.district) || Truthy(b.neighborhood)
    requires var b := Shape(j);
             (b.city.Some? ==> ' ' !in b.city.value) &&
             (b.district.Some? ==> ' ' !in b.district.value) &&
             (b.neighborhood.Some? ==> ' ' !in b.neighborhood.value)
    ensures var b := Shape(j);
            Text.Split(b.full, ' ') == Text.TruthyParts([b.city, b.district, b.neighborhood])
  {
    var b := Shape(j);
    var parts := [b.city, b.district, b.neighborhood];
    if Truthy(b.city) { assert Truthy(parts[0]); }
    else if Truthy(b.district) { assert Truthy(parts[1]); }
    else { assert Truthy(parts[2]); }
    Text.SplitJoinTruthy(parts);
  }
}
