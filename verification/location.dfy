/**
 * The location settings page (app/settings/location/page.tsx): restore of
 * the saved location, keyword search result handling, choosing a result,
 * saving and deleting. The Kakao SDK itself is outside the model: a search
 * is "issued" with a keyword and its callback is given the result.
 */
module LocationSettings {
  import opened Wrappers
  import opened Storage
  import Text
  import Lists

  const StorageKey := "purecare_location_pref"
  const MaxResults := 5

  datatype SavedLocation = SavedLocation(city: string, fullLabel: Option<string>)

  /** A keyword-search document; Kakao sends an absent address as the empty string. */
  datatype Place = Place(addressName: string, roadAddressName: string, placeName: string)

  datatype Page = Page(query: string, selected: Option<SavedLocation>, results: seq<Place>)

  const InitialPage := Page("", None, [])

  /** The restore effect: a stored, parseable location becomes the selection and its city the query. */
  function Restore(page: Page, st: Store, c: Codec<SavedLocation>): (page': Page)
    ensures ReadParsed(st, StorageKey, c).None? ==> page' == page
    ensures ReadParsed(st, StorageKey, c).Some? ==>
              page'.selected == ReadParsed(st, StorageKey, c) &&
              page'.query == ReadParsed(st, StorageKey, c).value.city &&
              page'.results == page.results
  {
    match ReadParsed(st, StorageKey, c)
    case None => page
    case Some(loc) => page.(selected := Some(loc), query := loc.city)
  }

  /** `handleSearch` up to issuing the search: the keyword sent, if any. */
  function HandleSearch(page: Page, sdkReady: bool): (r: (Page, Option<string>))
    ensures !sdkReady ==> r == (page, None)
    ensures sdkReady && Text.Trim(page.query) == "" ==> r == (page.(results := []), None)
    ensures sdkReady && Text.Trim(page.query) != "" ==> r == (page, Some(Text.Trim(page.query)))
  {
    if !sdkReady then (page, None)
    else if Text.Trim(page.query) == "" then (page.(results := []), None)
    else (page, Some(Text.Trim(page.query)))
  }

  /** The search callback: no results unless the status is OK, and then at most the first five, in order. */
  function OnSearchResult(page: Page, data: seq<Place>, statusOk: bool): (page': Page)
    ensures page'.query == page.query && page'.selected == page.selected
    ensures !statusOk ==> page'.results == []
    ensures statusOk ==> |page'.results| <= MaxResults && page'.results <= data
    ensures statusOk && |data| <= MaxResults ==> page'.results == data
    ensures statusOk && |data| > MaxResults ==> |page'.results| == MaxResults
  {
    page.(results := if statusOk then Lists.Take(data, MaxResults) else [])
  }

  /** `place.address_name || place.road_address_name || place.place_name`. */
  function AddressOf(place: Place): (address: string)
    ensures place.addressName != "" ==> address == place.addressName
    ensures place.addressName == "" && place.roadAddressName != "" ==> address == place.roadAddressName
    ensures place.addressName == "" && place.roadAddressName == "" ==> address == place.placeName
  {
    if place.addressName != "" then place.addressName
    else if place.roadAddressName != "" then place.roadAddressName
    else place.placeName
  }

  /** `address.split(' ')[0] || address`: the text before the first space, or the whole address when that is empty. */
  function CityOf(address: string): (city: string)
    ensures city <= address
    ensures ' ' !in city || city == address
    ensures city == "" ==> address == ""
    ensures city != address ==> address[|city|] == ' ' && city != ""
    ensures address != "" && address[0] != ' ' ==> ' ' !in city
  {
    var first := Text.Split(address, ' ')[0];
    if first != "" then first else address
  }

  /** The first word of a space-joined label is its city. */
  lemma CityOfJoinedLabel(city: string, rest: seq<string>)
    requires city != "" && ' ' !in city
    requires forall k :: 0 <= k < |rest| ==> ' ' !in rest[k]
    ensures CityOf(Text.Join([city] + rest, ' ')) == city
  {
    var ws := [city] + rest;
    forall k | 0 <= k < |ws| ensures ' ' !in ws[k] {
      if k > 0 { assert ws[k] == rest[k - 1]; }
    }
    Text.SplitJoin(ws, ' ');
    assert Text.Split(Text.Join(ws, ' '), ' ')[0] == city;
  }

  /** `handleSelect`: select the place, show its city in the query, close the result list. */
  function HandleSelect(page: Page, place: Place): (page': Page)
    ensures page'.selected == Some(SavedLocation(CityOf(AddressOf(place)), Some(AddressOf(place))))
    ensures page'.query == CityOf(AddressOf(place)) && page'.results == []
  {
    var address := AddressOf(place);
    var city := CityOf(address);
    Page(city, Some(SavedLocation(city, Some(address))), [])
  }

  /** What `handleSave` writes: the selection, else `{ city: query.trim() }`; nothing when both are empty. */
  function SaveValue(page: Page): (loc: Option<SavedLocation>)
    ensures page.selected.Some? ==> loc == page.selected
    ensures page.selected.None? && Text.Trim(page.query) == "" ==> loc == None
    ensures page.selected.None? && Text.Trim(page.query) != "" ==>
              loc == Some(SavedLocation(Text.Trim(page.query), None))
  {
    if page.selected.None? && Text.Trim(page.query) == "" then None
    else Some(page.selected.GetOr(SavedLocation(Text.Trim(page.query), None)))
  }

  /** `handleSave` on the store. */
  function HandleSave(page: Page, st: Store, c: Codec<SavedLocation>): (st': Store)
    ensures SaveValue(page).None? ==> st' == st
    ensures SaveValue(page).Some? ==> StorageKey in st' && st'[StorageKey] == c.serialise(SaveValue(page).value)
    ensures st' - {StorageKey} == st - {StorageKey}
  {
    match SaveValue(page)
    case None => st
    case Some(loc) => Storage.Persist(st, StorageKey, c, loc)
  }

  /** `handleDelete`: without confirmation nothing; otherwise the key is removed and the page reset. */
  function HandleDelete(page: Page, st: Store, confirmed: bool): (r: (Page, Store))
    ensures !confirmed ==> r == (page, st)
    ensures confirmed ==> r.0 == InitialPage && StorageKey !in r.1
    ensures r.1 - {StorageKey} == st - {StorageKey}
  {
    if !confirmed then (page, st) else (InitialPage, RemoveItem(st, StorageKey))
  }

  /** Reopening the page after a save shows what was saved. */
  lemma SaveThenReopen(page: Page, st: Store, c: Codec<SavedLocation>)
    requires Lawful(c) && SaveValue(page).Some?
    ensures var loc := SaveValue(page).value;
            Restore(InitialPage, HandleSave(page, st, c), c) == Page(loc.city, Some(loc), [])
  {
    ReadAfterPersist(st, StorageKey, c, SaveValue(page).value);
  }

  /** Selecting a result and saving stores that result's city and full address. */
  lemma SelectThenSave(page: Page, place: Place, st: Store, c: Codec<SavedLocation>)
    requires Lawful(c)
    ensures var loc := SavedLocation(CityOf(AddressOf(place)), Some(AddressOf(place)));
            ReadParsed(HandleSave(HandleSelect(page, place), st, c), StorageKey, c) == Some(loc)
  {
    var loc := SavedLocation(CityOf(AddressOf(place)), Some(AddressOf(place)));
    ReadAfterPersist(st, StorageKey, c, loc);
  }

  /** Reopening the page after a confirmed delete shows the initial page. */
  lemma DeleteThenReopen(page: Page, st: Store, c: Codec<SavedLocation>)
    ensures Restore(InitialPage, HandleDelete(page, st, true).1, c) == InitialPage
  {
  }
}
