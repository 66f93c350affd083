# PuriCare mobile client: session, preference and weather logic in Dafny

This project models the logic of the PuriCare mobile web client that is not
rendering. That covers six areas:

- **The session store** (`AuthProvider`). It restores the session once from
  `localStorage` and then sets `ready`. It writes the whole session back
  after every change. It follows other tabs through `storage` events.
  `signOut` clears it.
- **The account page.** It edits the display name through the session store,
  logs out after confirmation, and shows fallbacks for a missing name or
  email.
- **Device registration.** The serial form and the QR confirmation both queue
  a provisional device record under `puricare_mock_devices`. The serial form
  also validates its input, calls the backend and maps errors to messages.
- **Small persisted pages.** These are location preference, privacy flags,
  automation toggles and the one-shot welcome modal.
- **The weather page.** It has the emoji classifier (the shared copy and the
  page's own copy), the geolocation status machine, and the forecast lists.
  It also builds the location labels and hint, and reads a daily min/max
  through a `??` chain.
- **The three proxy routes** (`/api/weather`, `/api/forecast`, `/api/geocode`).
  Each has its guard clauses, its upstream error handling and its reply
  shaping.

## How things are modelled

- `localStorage` is a `map<string, string>` (module `Storage`).
- JSON is a `Codec`: a partial `parse` and a total `serialise`, passed as a
  parameter. Round-trip properties assume `Lawful(c)`: what is written is
  non-empty and parses back to the same value.
- Each React effect is its own step. On mount the provider restores, then
  persists the first render's empty session, then persists the restored
  session. Afterwards every session change is followed by a persist.
- `fetch`, SWR, the router, the clock and the geolocation callbacks are
  parameters or recorded outcomes. Examples: an upstream response is
  `Rejected` or `Responded(ok, text, json)`, and navigation is an
  `Option<string>` path.
- JavaScript string semantics are written out in module `Text`:
  - `trim` with the full ECMAScript whitespace set;
  - `.length` in UTF-16 code units;
  - `split(' ')`, which keeps empty pieces, and `join`;
  - `filter(Boolean).join(' ')`;
  - `String(n)` and a decimal `Number()`.

Two behaviours of the session store worth stating plainly:

- A `storage` event whose new value does not parse leaves the session as it
  was.
- After `signOut`, the persist effect writes the serialised empty session
  back under `purecare_auth`. The key therefore ends up present, not absent.

Three behaviours of the code as written are proved as they are:

- Opening a new tab briefly signs the other tabs out. The new tab's mount
  commit persists the empty session before the restored one
  (`Auth.MountTransientSignOut`).
- In local mode the serial form never sets `loading`. A second submit
  therefore queues a second record (`SerialRegistration.LocalResubmitQueuesAgain`).
- The weather page reads `d.dt` and `d.tempMin`… from daily entries. This
  client's own forecast route sends `ts`, `min` and `max`. The min/max chain
  still reaches the route's values, but no `dt` is present
  (`WeatherPage.RouteDayShown`).

## Model

| member | source | states |
|---|---|---|
| Auth.Init | lib/auth.tsx:34-35 | The first render holds the empty session, `ready` is false, and the store is untouched. |
| Auth.Restore | lib/auth.tsx:38-44 | `ready` is set whatever happens. A stored, non-empty, parseable blob replaces the session. An absent, empty or unparseable one leaves it. |
| Auth.Persist | lib/auth.tsx:47-51 | Afterwards the stored value under `purecare_auth` is the serialisation of the whole session. No other key changes. |
| Auth.MountFirstCommitStore | lib/auth.tsx:34-51 | The mount commit writes the first render's empty session and no other key. |
| Auth.Mount | lib/auth.tsx:34-51 | A mounted provider is ready and in step with the store. Its session is the parsed stored blob, or the empty session. |
| Auth.SetAuth | lib/auth.tsx:47-51 | `setAuth` plus persist: the session is the new one and in step with the store. Other keys are untouched. |
| Auth.ListenerUpdate | lib/auth.tsx:55-61 | Events for other keys do not call `setAuth`. A missing or empty value gives the empty session. Otherwise the result is the parse result, and a failed parse gives no update. |
| Auth.OnStorage | lib/auth.tsx:54-64 | The listener changes only the session. Other keys leave it alone. A removed value empties it. A parseable value replaces it, and an unparseable one keeps it. |
| Auth.ExternalWrite | lib/auth.tsx:54-64 | Another tab's write sets or removes exactly one key, or `clear()` empties the store. |
| Auth.OnExternalChange | lib/auth.tsx:54-64 | After another tab's write the session is the listener's update, or unchanged when there is none. Without an update the store is exactly the other tab's write. With one, the persist effect leaves the store in step and every other key as the other tab left it. |
| Auth.SignOut | lib/auth.tsx:67-70 | `signOut` removes the key and empties the session. Nothing else changes. |
| Auth.SignOutSettled | lib/auth.tsx:47-70 | After the persist effect, the empty session is stored under the key again. |
| Auth.RestoreAfterWrite | lib/auth.tsx:38-51 | A tab mounted on what another tab persisted restores exactly that session. |
| Auth.CorruptBlobOverwritten | lib/auth.tsx:39-51 | A corrupt stored blob leaves the session empty, and the blob is overwritten with the serialised empty session. |
| Auth.OtherKeyIgnored | lib/auth.tsx:56 | A `storage` event for another key, or for `clear()`, leaves the session unchanged. |
| Auth.UnparseableEventKeepsSession | lib/auth.tsx:57-60 | An unparseable new value keeps the old session, which then no longer matches the store. |
| Auth.CrossTabConvergence | lib/auth.tsx:47-64 | When tab A sets a session, tab B adopts exactly that session and ends in step with the same store. |
| Auth.RemovalSignsOut | lib/auth.tsx:47-59 | Removing the key in another tab signs this tab out, and the empty session is written back. |
| Auth.MountTransientSignOut | lib/auth.tsx:34-64 | A new tab's mount makes a signed-in tab adopt the empty session first and its own session again afterwards. |
| Auth.ApplyKeepsSynced | lib/auth.tsx:47-70 | From a synced provider, setting the session, a `storage` event that names a key (any other key, or the session key with an absent, empty or parseable value), or sign-out each keep the store in step with the session and keep `ready`. |
| Auth.RunKeepsSynced | lib/auth.tsx:47-70 | Every run of such actions after mount, including other tabs' writes to any other key of the origin, keeps the stored blob equal to the serialised session. |
| Auth.ClearKeepsSessionButDesyncs | lib/auth.tsx:54-64 | Another tab's `clear()` is ignored by the listener: the session survives while the store is empty, so the two no longer match. |
| Storage.GetItem | lib/auth.tsx:40 | `getItem` gives a value exactly when the key is present, and then the stored string. |
| Storage.SetItem | lib/auth.tsx:49 | `setItem` makes the key read back as the value and changes no other key. |
| Storage.RemoveItem | lib/auth.tsx:68 | `removeItem` makes the key read as absent and changes no other key. |
| Storage.ReadParsed | lib/auth.tsx:40-41 | The read gives a value exactly when a non-empty stored value parses, and then gives that parse. |
| Storage.Persist | lib/auth.tsx:49 | The key holds the serialisation and nothing else changes. |
| Storage.ReadAfterPersist | lib/auth.tsx:40-49 | What was persisted under a key is what the next read restores. |
| Storage.ReadAfterRemove | lib/auth.tsx:40-68 | A removed key restores nothing. |
| Account.InitialName | app/settings/account/page.tsx:11 | The field starts with the profile's name, or `''` without a profile or a name. |
| Account.SaveName | app/settings/account/page.tsx:17-20 | Only `profile.name` changes. `idToken`, email and picture are kept. Without a profile, the result holds only the name. |
| Account.HandleSave | app/settings/account/page.tsx:14-22 | The edited session is set and persisted. Other keys are untouched. |
| Account.SaveThenReopen | app/settings/account/page.tsx:11-20 | Reopening after a save shows the saved name. Of two saves, only the last one counts. |
| Account.SaveSameNameIsIdentity | app/settings/account/page.tsx:11-20 | Saving the name unchanged leaves the session as it was. |
| Account.HandleLogout | app/settings/account/page.tsx:24-28 | Without confirmation nothing happens. With it the session is signed out and persisted, and the page navigates to `/login`. |
| Account.DisplayName | app/settings/account/page.tsx:97 | The stored name is shown. '이름 없음' appears only when the name is missing. |
| Account.DisplayEmail | app/settings/account/page.tsx:100 | The stored email is shown. '이메일 정보 없음' appears only when the email is missing. |
| Account.EmptyNameShownAsIs | app/settings/account/page.tsx:97 | An empty name is shown as empty, because `??` does not treat `''` as missing. |
| DeviceQueue.StoredList | app/devices/add/serial/page.tsx:55-56 | An absent or empty value reads as `[]`. Otherwise the list is the parse result, and a failed parse gives none. |
| DeviceQueue.AppendLocal | app/devices/add/serial/page.tsx:54-61 | A failed parse leaves the store as it was. Otherwise the old list plus the record is written back. No other key changes. |
| DeviceQueue.AppendLocalGrowsByOne | app/devices/add/serial/page.tsx:55-58 | The queue reads back one longer, with the old records in order and the new one last. |
| DeviceQueue.MockDevice | app/devices/add/serial/page.tsx:43-52 | A provisional record has the prefixed clock id, '새 기기', aqi 30, '좋음', the chosen room and the given subtitle. |
| DeviceQueue.MockIdsDifferAcrossTime | app/devices/add/serial/page.tsx:45 | Different clock readings give different ids. |
| SerialRegistration.Validate | app/devices/add/serial/page.tsx:78-88 | A serial is accepted iff its trimmed form is non-empty and at least 6 UTF-16 units long. Blank input gets the "enter" message and a short one the format message. |
| SerialRegistration.BlankSerialIff | app/devices/add/serial/page.tsx:81-83 | The "enter serial" message appears exactly for input that is all whitespace. |
| SerialRegistration.ValidateIgnoresPadding | app/devices/add/serial/page.tsx:78 | Surrounding whitespace never changes the verdict. |
| SerialRegistration.AcceptedLengthBounds | app/devices/add/serial/page.tsx:78-88 | An accepted serial has at least 3 code points and is no longer than the input. |
| SerialRegistration.NewDevice | app/devices/add/serial/page.tsx:43-52 | The record has the `serial-` id prefix and fixed name, aqi and label. Its subtitle ends in `S/N ` followed by the trimmed serial. |
| SerialRegistration.ErrorMessage | app/devices/add/serial/page.tsx:115-124 | A truthy body `error` wins. Otherwise 400 and 409 get their own messages and every other status the generic one. The message is never empty. |
| SerialRegistration.AppendToCache | app/devices/add/serial/page.tsx:133-137 | An array cache gets the device appended at the end. Anything else is replaced by `[device]`. |
| SerialRegistration.Submit | app/devices/add/serial/page.tsx:74-146 | While `loading`, nothing happens. A rejected serial sets only the error. Without a backend, one record is queued and the page navigates to success. With a backend the queue is never touched. A non-ok reply leaves `loading` cleared and shows `ErrorMessage` of its status and `error` field. A fetch failure, or an ok reply without a JSON body, leaves `loading` cleared and shows the network message. In both failure cases nothing else changes. Only a successful reply with a device changes the cache, and success is the only navigation. |
| SerialRegistration.FailedRequestReportsError | app/devices/add/serial/page.tsx:115-145 | A failed request clears `loading`, keeps the serial and room, and changes nothing outside the form. The message is the body's truthy `error`, else the message for the status (a non-ok reply). It is the network message for a fetch failure or an ok reply without JSON. |
| SerialRegistration.SuccessfulRequestUpdatesCache | app/devices/add/serial/page.tsx:130-140 | A successful request appends the returned device to the cache and navigates, with `loading` left set. |
| SerialRegistration.LocalSubmitQueuesOne | app/devices/add/serial/page.tsx:54-99 | A local submit queues exactly one record carrying the trimmed serial. |
| SerialRegistration.LocalResubmitQueuesAgain | app/devices/add/serial/page.tsx:76-99 | `loading` is not set in local mode, so a second submit queues a second record. |
| QrConfirm.NewDevice | app/devices/add/qr/confirm/page.tsx:40-49 | The record has the `qr-` prefix, fixed name, aqi, label and subtitle, and the chosen room. |
| QrConfirm.HandleConfirm | app/devices/add/qr/confirm/page.tsx:69-76 | While submitting, nothing happens. Otherwise the page marks itself submitting, queues the record and goes `/home`. |
| QrConfirm.DefaultRoomIsLiving | app/devices/add/qr/confirm/page.tsx:67-74 | Confirming with the initial selection queues a living-room record. |
| QrConfirm.AtMostOnePerVisit | app/devices/add/qr/confirm/page.tsx:51-76 | Two confirms on one visit queue exactly one record, appended to the old list. |
| QrConfirm.UnparseableQueueUntouched | app/devices/add/qr/confirm/page.tsx:51-59 | A stored list that does not parse is left as it was, and the page still goes home. |
| LocationSettings.Restore | app/settings/location/page.tsx:34-43 | A parseable stored location becomes the selection, and its city becomes the query. Otherwise nothing changes. |
| LocationSettings.HandleSearch | app/settings/location/page.tsx:75-92 | Without the SDK nothing happens. A blank trimmed query clears the results and searches nothing. Otherwise the trimmed query is searched. |
| LocationSettings.OnSearchResult | app/settings/location/page.tsx:93-104 | A non-OK status gives no results. OK gives the first five results in order. |
| LocationSettings.AddressOf | app/settings/location/page.tsx:119 | The label is the first non-empty of address, road address and place name. |
| LocationSettings.CityOf | app/settings/location/page.tsx:120-121 | The city is the address prefix before the first space. It is the whole address when that prefix is empty. |
| LocationSettings.CityOfJoinedLabel | app/settings/location/page.tsx:120-121 | The city of a space-joined label is its first word. |
| LocationSettings.HandleSelect | app/settings/location/page.tsx:117-127 | Selecting a place stores its city and full label. The query becomes the city and the list closes. |
| LocationSettings.SaveValue | app/settings/location/page.tsx:131-136 | The selection is saved, else `{ city: query.trim() }`. Nothing is saved when both are empty. |
| LocationSettings.HandleSave | app/settings/location/page.tsx:130-139 | Only the location key is written, and only when there is something to save. |
| LocationSettings.HandleDelete | app/settings/location/page.tsx:154-160 | A confirmed delete removes the key and resets the page. Otherwise nothing changes. |
| LocationSettings.SaveThenReopen | app/settings/location/page.tsx:34-139 | Reopening after a save restores the saved location. |
| LocationSettings.SelectThenSave | app/settings/location/page.tsx:117-139 | Select then save stores the place's city and full address. |
| LocationSettings.DeleteThenReopen | app/settings/location/page.tsx:34-160 | Reopening after a delete shows the initial page. |
| PrivacySettings.Toggle | app/settings/privacy/page.tsx:38-39 | `toggle(k)` negates flag `k` and leaves the other two. |
| PrivacySettings.ToggleInvolution | app/settings/privacy/page.tsx:38-39 | Toggling a flag twice restores the state, and toggles of different flags commute. |
| PrivacySettings.Mount | app/settings/privacy/page.tsx:17-36 | The state is the parsed stored blob, else all-on, and it is written back. |
| PrivacySettings.HandleToggle | app/settings/privacy/page.tsx:34-39 | A toggle is followed by a write of the whole state. No other key changes. |
| PrivacySettings.DefaultsAllOn | app/settings/privacy/page.tsx:17-21 | With nothing stored, every flag starts on. |
| PrivacySettings.ReopenAfterToggle | app/settings/privacy/page.tsx:23-39 | Reopening after a toggle shows the toggled state. |
| Automation.ToggleItem | app/automation/page.tsx:127-138 | Length and order are kept. Only `active` changes, and it flips exactly on the items with the id. |
| Automation.ToggleItemInvolution | app/automation/page.tsx:127-138 | Toggling an id twice is the identity. An absent id changes nothing. |
| Automation.ActiveCount | app/automation/page.tsx:140 | The active count is the number of positions holding an item with `active` true, so it never exceeds the number of items. |
| Automation.ToggleCountDelta | app/automation/page.tsx:127-140 | After a toggle, the count gains the id's inactive items and loses its active ones. |
| Automation.CountWithSingle | app/automation/page.tsx:127-140 | A unique id is counted once with its own flag and never with the other. |
| Automation.NoIdNoCount | app/automation/page.tsx:127-140 | An absent id is counted with neither flag. |
| Automation.ToggleUniqueMovesCountByOne | app/automation/page.tsx:127-140 | Toggling a present, unique id moves the active count by exactly one, in the direction of the flip. |
| Automation.InitialShape | app/automation/page.tsx:20-48 | The built-in list has ids 1, 2, 3, and two of them are active. |
| WelcomeModal.StoredAt | components/WelcomeModel.tsx:10 | A missing or empty timestamp reads as 0. |
| WelcomeModal.StoredName | components/WelcomeModel.tsx:11 | The stored name, or `''` when the key is absent; a stored `''` is read as `''`. |
| WelcomeModal.CheckOnMount | components/WelcomeModel.tsx:8-16 | The modal opens iff the timestamp is a non-zero number less than 30 000 ms old. An open modal shows the stored name. Both keys are removed in every case, and nothing else changes. |
| WelcomeModal.NoTimestampStaysClosed | components/WelcomeModel.tsx:10-12 | The modal stays closed when the timestamp key is missing or its text has no digit 1–9: empty, `0`, `000`, or any non-numeric text. |
| WelcomeModal.StoredZeroStaysClosed | components/WelcomeModel.tsx:10-12 | A stored `0` keeps the modal closed at any time. |
| WelcomeModal.FreshLoginOpens | components/WelcomeModel.tsx:10-12 | A decimal timestamp as the login page writes it opens the modal iff it is less than 30 s old. |
| WelcomeModal.OneShot | components/WelcomeModel.tsx:12-14 | A second mount finds no keys and stays closed. |
| WelcomeModal.Greeting | components/WelcomeModel.tsx:33 | `, <name> 님!` appears only for a non-empty name. Otherwise the heading has `!`. |
| WelcomeModal.GreetingShowsName | components/WelcomeModel.tsx:33 | The name can be read back out of the greeting. |
| WelcomeModal.Confirm | components/WelcomeModel.tsx:39 | Confirm closes the modal. |
| WelcomeModal.Render | components/WelcomeModel.tsx:18-34 | Nothing is rendered iff the modal is closed. An open modal renders its greeting. |
| WelcomeModal.ConfirmHides | components/WelcomeModel.tsx:18-39 | After confirm, nothing is rendered. |
| WeatherEmoji.Classify | lib/weather.tsx:2-13 | The result is always one of the eight emojis. |
| WeatherEmoji.ClassifyLowered | lib/weather.tsx:6-12 | The keyword cascade on the lower-cased description always yields one of the eight emojis. |
| WeatherEmoji.LibWeatherEmoji | lib/weather.tsx:2-13 | A missing or empty `main` gives 🌤️. The result is one of the eight emojis. |
| WeatherEmoji.PageWeatherEmoji | app/weather/page.tsx:16-27 | The same holds for the page's own copy. |
| WeatherEmoji.EightDistinctEmojis | lib/weather.tsx:3-12 | The eight results are pairwise distinct. |
| WeatherEmoji.Precedence | lib/weather.tsx:6-8 | `thunder` beats everything. `drizzle` or `rain` beat `snow` and what follows. `snow` beats the fog words. |
| WeatherEmoji.FogKeywords | lib/weather.tsx:9 | With no earlier keyword, 🌫️ appears iff `mist`, `fog`, `haze` or `smoke` is present. |
| WeatherEmoji.ClearSky | lib/weather.tsx:10 | With `clear` and no earlier keyword, the result is 🌙 iff `icon` ends in `n`. Otherwise, including when `icon` is absent, it is ☀️. |
| WeatherEmoji.CloudOrDefault | lib/weather.tsx:11-12 | Past `clear`, `cloud` gives ☁️ and anything else 🌤️. |
| WeatherEmoji.NotFog | lib/weather.tsx:9 | Having no earlier keyword rules out every fog word. |
| WeatherEmoji.CaseInsensitive | lib/weather.tsx:4 | Upper-casing the ASCII letters of the description changes neither copy's result. |
| WeatherEmoji.SameLowerSameEmoji | lib/weather.tsx:3-4 | Two descriptions with the same lower-cased text get the same emoji from either copy. |
| WeatherEmoji.KelvinSignSmoke | lib/weather.tsx:4-9 | A description spelling `smoke` with the Kelvin sign for `K` lower-cases to `smoke` and gives 🌫️ in the shared copy. |
| WeatherEmoji.CopiesDifferOnlyOnSmoke | app/weather/page.tsx:16-27 | The copies disagree iff `main` mentions `smoke` and none of the earlier words or `mist`/`fog`/`haze`. |
| WeatherPage.Step | app/weather/page.tsx:71-99 | Without geolocation the status is `error`. A request sets `loading`. A fix sets `ok` and moves the coordinates. A refused permission gives `denied` and any other error `error`. Failures keep the coordinates. |
| WeatherPage.CoordsAreSeoulOrDelivered | app/weather/page.tsx:65-99 | Over any run, the coordinates are Seoul or a position a callback delivered. This is what the fallback hints promise. |
| WeatherPage.NoFixStaysOnSeoul | app/weather/page.tsx:65-99 | With no delivered position the page stays on Seoul. |
| WeatherPage.MountOutcome | app/weather/page.tsx:71-104 | The mount request ends in `error` without geolocation. Otherwise its callback ends in `ok`, `denied` or `error`. |
| WeatherPage.LocationHint | app/weather/page.tsx:165-172 | The hint is non-empty exactly for `loading`, `denied` and `error`, with each status's own text. |
| WeatherPage.HintDeterminesStatus | app/weather/page.tsx:165-172 | Different statuses give different hints, except `idle` and `ok`. |
| WeatherPage.HourlyRows | app/weather/page.tsx:140-142 | A non-array gives `[]`. An array gives its first min(n, 12) entries. |
| WeatherPage.DailyRows | app/weather/page.tsx:143-145 | A non-array gives `[]`. An array gives its first min(n, 5) entries. |
| WeatherPage.PageShowsFirstFiveDays | app/weather/page.tsx:143-145 | Composed with the forecast route's 7, the page shows the first five upstream days, reshaped. |
| WeatherPage.CityLabel | app/weather/page.tsx:148 | The header is `geo.city` when truthy, else '서울특별시'. It is never empty. |
| WeatherPage.FullAddressLabel | app/weather/page.tsx:151-153 | The card label is the space-join of the truthy ones among city, district and neighborhood, in that order; a missing level is skipped. It is `''` without a reply. |
| WeatherPage.FullAddressMatchesRoute | app/weather/page.tsx:151-153 | The page rebuilds exactly the geocoding route's `full`. |
| WeatherPage.NoRegionFallsBack | app/weather/page.tsx:148-153 | With no region document, the header shows Seoul and the card label is empty. |
| WeatherPage.ShownMin | app/weather/page.tsx:413-418 | The min is the first present of `tempMin`, `temp_min`, `temp.min`, `min`, else null. |
| WeatherPage.ShownMax | app/weather/page.tsx:419-424 | The same chain is used on the max fields. |
| WeatherPage.RouteDayShown | app/weather/page.tsx:413-424 | For this client's own forecast entries, the chain yields the route's `min`/`max`, and the entry has no `dt`. |
| Http.Guard | app/api/weather/route.ts:20-26 | A missing or empty `lat`/`lon` gives 400. With coordinates but no key the result is 500 with the route's message. Only when all three are present does the request go through. |
| Http.CoordinatesCheckedFirst | app/api/forecast/route.ts:12-18 | A missing coordinate gives 400 whatever the key. |
| WeatherRoute.AqiLabel | app/api/weather/route.ts:3-13 | 1–5 get their own label and colour. Everything else, null included, gets '알 수 없음' / `#9ca3af`. |
| WeatherRoute.GradesDistinct | app/api/weather/route.ts:5-10 | The five grades differ pairwise in both label and colour. |
| WeatherRoute.FirstCondition | app/api/weather/route.ts:52 | The first condition entry, or an empty object when there is none. |
| WeatherRoute.FirstAqi | app/api/weather/route.ts:58 | The value is `list[0].main.aqi` when `list` has an entry. It is `null` when `list` is missing or empty. |
| WeatherRoute.Shape | app/api/weather/route.ts:49-73 | `description`/`main`/`icon` come from the first condition, defaulting to `''`. `humidity` and `city` are passed through. The grade is `aqiLabel` of the same `aqi.value`. |
| WeatherRoute.Get | app/api/weather/route.ts:15-77 | The guards come first. 200 comes back iff both upstreams answered ok with JSON. When both answered and either is not ok the reply is 502 `upstream_error` with the text of the current-weather response if it failed, else the air response's. A rejected fetch, or missing JSON from two ok responses, gives 500 `server_error`. Only 400, 500 and 502 are errors. |
| WeatherRoute.BothFailedReportsCurrent | app/api/weather/route.ts:41-43 | When both upstreams fail, the detail is the current-weather response's text. |
| WeatherRoute.NoConditionGivesEmptyStrings | app/api/weather/route.ts:52-55 | With no condition entry, the three text fields are `''`. |
| WeatherRoute.NoAirEntryUnknownGrade | app/api/weather/route.ts:58-59 | With no air entry, the value is null and the grade unknown. |
| ForecastRoute.Hour | app/api/forecast/route.ts:31-36 | `ts` is `dt * 1000`. `main`/`icon` come from the first condition. |
| ForecastRoute.Day | app/api/forecast/route.ts:39-45 | `ts` is `dt * 1000`. `min`/`max` and the condition are passed through. |
| ForecastRoute.Hourly | app/api/forecast/route.ts:31 | The first min(n, 12) upstream hours, in order and reshaped. A missing list gives `[]`. |
| ForecastRoute.Daily | app/api/forecast/route.ts:39 | The first min(n, 7) upstream days, in order and reshaped. A missing list gives `[]`. |
| ForecastRoute.Get | app/api/forecast/route.ts:7-51 | The guards come first. 200 comes back iff the upstream answered ok with JSON, and then carries the two lists and the clock. A response that is not ok gives 502 `upstream_error` with its text. A rejected fetch or missing JSON gives 500 `server_error`. |
| ForecastRoute.ReplyBounds | app/api/forecast/route.ts:31-39 | The reply holds at most 12 hours and 7 days, and all of them when fewer came back. |
| ForecastRoute.OnlyLeadingEntriesMatter | app/api/forecast/route.ts:31-45 | Two upstream replies that agree on their first 12 hours and first 7 days give the same forecast lists. |
| GeocodeRoute.Shape | app/api/geocode/route.ts:42-54 | The levels come from the first document's depths 1–3, each null when absent. Without documents all are null and `full` is `''`. `full` is the space-join of the truthy levels, in the order city, district, neighborhood. |
| GeocodeRoute.Get | app/api/geocode/route.ts:3-61 | The guards come first. 200 comes back iff Kakao answered ok with JSON. A response that is not ok gives 502 `kakao_error` with Kakao's text. A rejected fetch or missing JSON gives 500 `server_error`. |
| GeocodeRoute.FullLabel | app/api/geocode/route.ts:53 | Three present levels give "city district neighborhood". `full` is empty iff no level is truthy. |
| GeocodeRoute.FullLabelSplits | app/api/geocode/route.ts:53 | For levels without spaces, splitting `full` on spaces gives back the truthy levels. |
| Text.Trim | app/devices/add/serial/page.tsx:78 | The result is the input with a whitespace-only prefix and suffix cut off, and it neither starts nor ends with whitespace. |
| Text.TrimEmptyIff | app/settings/location/page.tsx:80 | A trimmed string is empty iff the input is all whitespace. |
| Text.TrimIdempotent | app/devices/add/serial/page.tsx:78 | Trimming twice is trimming once. |
| Text.Utf16Length | app/devices/add/serial/page.tsx:85 | The UTF-16 length is the code-point count plus the number of positions holding a code point above U+FFFF. So it lies between the count and twice the count, and equals the count for BMP text. |
| Text.Split | app/settings/location/page.tsx:120 | Split yields at least one piece, and no piece contains the separator. The first piece is the prefix before the first separator. |
| Text.Join | app/settings/location/page.tsx:120 | No pieces join to `''`. The first piece is a prefix of the result, and the separator follows it when there are more pieces. |
| Text.JoinSplit | app/settings/location/page.tsx:120 | Joining the pieces of a split gives the string back. |
| Text.SplitJoin | app/settings/location/page.tsx:120-121 | Splitting a join of separator-free pieces gives the pieces back. |
| Text.TruthyParts | app/api/geocode/route.ts:53 | The result keeps exactly the truthy parts, all non-empty. It is empty iff no part is truthy. |
| Text.Keep | app/api/geocode/route.ts:53 | One part contributes its string exactly when it is truthy, and nothing otherwise. |
| Text.TruthyPartsIsKept | app/api/geocode/route.ts:53 | The filtered parts are the concatenation of what each part keeps, in order. |
| Text.KeptAppend | app/api/geocode/route.ts:53 | What a concatenation keeps is what each half keeps, concatenated. |
| Text.TruthyPartsAppend | app/api/geocode/route.ts:53 | Filtering distributes over concatenation, so the kept parts keep their order and multiplicity. |
| Text.TruthyPartsSingle | app/api/geocode/route.ts:53 | A single part is kept exactly when it is truthy. |
| Text.TruthyPartsThree | app/api/geocode/route.ts:53 | Filtering three parts keeps the truthy ones in their order. |
| Text.JoinTruthy | app/api/geocode/route.ts:53 | The joined label is empty iff no part is truthy. |
| Text.JoinTruthyOfThree | app/weather/page.tsx:151-153 | The label of three parts is the space-join of the truthy ones, in order. |
| Text.JoinOfThree | app/api/geocode/route.ts:53 | Three pieces are joined with one separator between neighbours. |
| Text.JoinTruthyThree | app/api/geocode/route.ts:53 | Three truthy parts are joined with single spaces, in order. |
| Text.SplitJoinTruthy | app/weather/page.tsx:151-153 | For space-free parts, splitting the label gives back the truthy parts. |
| Text.Contains | lib/weather.tsx:6-11 | A word is contained when it is a prefix, and only when it is no longer than the string. |
| Text.ContainsIff | lib/weather.tsx:6-11 | `includes` holds iff the word occurs at some position. |
| Text.EndsWith | lib/weather.tsx:10 | `endsWith(c)` holds iff the string is non-empty and is its own prefix followed by `c`. |
| Text.ToLower | lib/weather.tsx:4 | The length is kept. Each code point is lower-cased on its own: `A`–`Z` and the Kelvin sign become ASCII lower case, and nothing upper-case ASCII remains. |
| Text.ToUpper | lib/weather.tsx:4 | ASCII upper-casing, used to state that the classifier ignores case: the length is kept and no ASCII lower-case letter remains. |
| Text.LowerForgetsCase | lib/weather.tsx:4 | Lower-casing the upper-cased string is lower-casing the string. |
| Text.NatToString | app/devices/add/serial/page.tsx:45 | `String(n)` has only digits and no leading zero. |
| Text.NatToStringRoundTrip | app/devices/add/serial/page.tsx:45 | The digits of `String(n)` denote `n`. |
| Text.ToNumber | components/WelcomeModel.tsx:10 | A blank or all-whitespace string is 0, and NaN only comes from non-blank text. A finite result from non-blank text needs a digit in the text. A truthy result needs a digit 1–9. |
| Text.NumberOfString | components/WelcomeModel.tsx:10 | `Number(String(n))` is `n`. |
| Lists.Take | app/weather/page.tsx:140-145 | The result is the first min(n, k) elements. A short list comes back whole. |
| Lists.TakeTake | app/weather/page.tsx:140-145 | Taking a shorter prefix of a prefix is taking the shorter prefix (the route's 7 days, then the page's 5). |
| Wrappers.FirstPresent | app/weather/page.tsx:413-418 | `a ?? b ?? … ?? null` gives the first present value, and null iff none is present. |

## Left out

- The access-token codec and the reconciler for remote, local and fallback device lists. Neither is part of the files modelled here.
- Rendering and styling. Avatar initials, button labels and layout are left out because they have no behaviour.
- The `saving` and `searching` flags and their `setTimeout` resets. They only drive button labels.
- The Kakao Maps SDK. Loading it, and `keywordSearch` itself, are foreign calls. Only the `sdkReady` flag and the search callback's result and status are modelled.
- Camera capture on the QR page, which is a browser API.
- `fetch`, SWR (`mutate`, revalidation) and the router. Each becomes an input (`Upstream`, `Response`) or a recorded outcome: the next cache value, or the navigation path.
- `alert` and `confirm`. `confirm` is a boolean parameter, and alerts are not modelled.
- `Date.now()` and `toISOString()`, which are parameters.
- `Math.round` of temperatures, `temp` in the weather and forecast replies, and `coord`. This is floating point: the routes' `min`/`max` enter the model as already-rounded integers.
- `formatHour`/`formatDay`, which depend on the time zone.
- The `temp` shown on the page, which is floating point.
- Real JSON text: `Codec` is abstract. A literal JSON `null` body from an upstream is not modelled. An upstream body is either JSON of the expected shape or a parse failure.
- Stored JSON of the wrong shape. The code adopts whatever `JSON.parse` returns: `setAuth(JSON.parse(raw))` in lib/auth.tsx:41 and :58 and `setState(JSON.parse(raw))` in app/settings/privacy/page.tsx:27 accept `null` or `{}`. The device pages (app/devices/add/serial/page.tsx:55-58, app/devices/add/qr/confirm/page.tsx:51-59) append to any stored array, such as `[1,2]`. The model's codecs read such values as parse failures. There the model keeps the session or default state, and leaves the device list untouched where the code appends.
- Exceptions thrown by `localStorage` itself (storage disabled, quota exceeded). The store is a total map.
  - lib/auth.tsx:39-42, 48-50 and 68, components/WelcomeModel.tsx:9-15, app/devices/add/serial/page.tsx:54-59 and app/devices/add/qr/confirm/page.tsx:51-56 catch and swallow these exceptions.
  - The location page calls `localStorage` outside any `try` (app/settings/location/page.tsx:35, 139, 157), and so does the privacy page (app/settings/privacy/page.tsx:24, 35). There the exception escapes the effect or the handler. That path is not modelled.
- The `typeof window === 'undefined'` guard for server-side rendering.
- The echo of a `storage` event back to its originating tab. Browsers do not deliver it; `OnExternalChange` models only the receiving tab.
- Http.ServerFail: the `server_error` reply's `detail` is the exception message, which is not modelled (always `None`).
- WeatherRoute.Get: the reply for a `text()` that throws while building the 502 detail is not modelled.
- ForecastRoute.Get: in the source, a `text()` that throws while building the 502 detail is caught and gives 500 `server_error` (app/api/forecast/route.ts:25-27, 48-49). The model treats the upstream text as always readable, so a non-ok response always gives 502.
- GeocodeRoute.Get: in the source, a `text()` that throws while building the 502 detail is caught and gives 500 `server_error` (app/api/geocode/route.ts:33-39, 55-59). The model treats the upstream text as always readable, so a non-ok response always gives 502.
- Text.ToNumber: `Number()` is modelled on decimal integers with an optional sign and surrounding whitespace (blank gives 0, anything else NaN). Hex, exponents, fractions and `Infinity` are not modelled.
- Text.ToLower: only the mappings that yield ASCII letters are modelled (`A`–`Z`, and U+212A KELVIN SIGN to `k`). Other code points are kept. U+0130 lower-cases to `i` followed by U+0307 in JavaScript. That mark cannot complete any keyword, but the model keeps U+0130 as it is.
- WeatherEmoji.CaseInsensitive: it states invariance under ASCII upper-casing only. JavaScript's full `toUpperCase` also maps `ſ` to `S`, `ı` to `I` and ligatures such as `ﬁ` to ASCII letters. Such a mapping can create a keyword match (`'ſnow'` upper-cases to `SNOW`), so no invariance under it is claimed. OpenWeather's `main` values are ASCII.
- Text.NatToString: `String(n)` switches to exponent notation at 10^21 and above, which is not modelled. Clock values are far below that.
- DeviceQueue.MockIdsDifferAcrossTime: ids are distinct only across different clock readings. Two records made in the same millisecond share an id, as in the code.

