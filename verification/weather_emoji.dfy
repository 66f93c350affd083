/**
 * `weatherEmoji(main, icon)`: the keyword-precedence classifier of
 * lib/weather.tsx and its copy inside app/weather/page.tsx. The two differ
 * only in the fog keywords: the page's copy has no `smoke`.
 */
module WeatherEmoji {
  import opened Wrappers
  import Text

  const PartlySunny := "🌤️"
  const Storm := "⛈️"
  const Rain := "🌧️"
  const Snow := "❄️"
  const Fog := "🌫️"
  const Moon := "🌙"
  const Sun := "☀️"
  const Cloud := "☁️"

  const AllEmojis: set<string> := {PartlySunny, Storm, Rain, Snow, Fog, Moon, Sun, Cloud}

  const LibFogWords: seq<string> := ["mist", "fog", "haze", "smoke"]
  const PageFogWords: seq<string> := ["mist", "fog", "haze"]

  predicate ContainsAny(s: string, words: seq<string>) {
    exists k :: 0 <= k < |words| && Text.Contains(s, words[k])
  }

  /** The classifier with the fog keywords as a parameter; `main` is matched lower-cased. */
  function Classify(main: Option<string>, icon: Option<string>, fogWords: seq<string>): (e: string)
    ensures e in AllEmojis
  {
    if !Truthy(main) then PartlySunny else ClassifyLowered(Text.ToLower(main.value), icon, fogWords)
  }

  /** The keyword cascade on the lower-cased description `m`. */
  function ClassifyLowered(m: string, icon: Option<string>, fogWords: seq<string>): (e: string)
    ensures e in AllEmojis
  {
    if Text.Contains(m, "thunder") then Storm
    else if Text.Contains(m, "drizzle") || Text.Contains(m, "rain") then Rain
    else if Text.Contains(m, "snow") then Snow
    else if ContainsAny(m, fogWords) then Fog
    else if Text.Contains(m, "clear") then (if icon.Some? && Text.EndsWith(icon.value, 'n') then Moon else Sun)
    else if Text.Contains(m, "cloud") then Cloud
    else PartlySunny
  }

  /** lib/weather.tsx. */
  function LibWeatherEmoji(main: Option<string>, icon: Option<string>): (e: string)
    ensures e in AllEmojis
    ensures !Truthy(main) ==> e == PartlySunny
  {
    Classify(main, icon, LibFogWords)
  }

  /** The local copy in app/weather/page.tsx. */
  function PageWeatherEmoji(main: Option<string>, icon: Option<string>): (e: string)
    ensures e in AllEmojis
    ensures !Truthy(main) ==> e == PartlySunny
  {
    Classify(main, icon, PageFogWords)
  }

  /** The eight results are pairwise distinct. */
  lemma EightDistinctEmojis()
    ensures |AllEmojis| == 8
  {
  }

  /** The keyword the classifier reacts to, in precedence order, for lower-cased text. */
  ghost predicate Mentions(main: Option<string>, word: string) {
    Truthy(main) && Text.Contains(Text.ToLower(main.value), word)
  }

  /** `thunder` beats every other keyword; `drizzle`/`rain` beat `snow` and all later keywords. */
  lemma Precedence(main: Option<string>, icon: Option<string>)
    ensures Mentions(main, "thunder") ==> LibWeatherEmoji(main, icon) == Storm
    ensures !Mentions(main, "thunder") && (Mentions(main, "drizzle") || Mentions(main, "rain")) ==>
              LibWeatherEmoji(main, icon) == Rain
    ensures (!Mentions(main, "thunder") && !Mentions(main, "drizzle") && !Mentions(main, "rain") &&
             Mentions(main, "snow")) ==> LibWeatherEmoji(main, icon) == Snow
  {
  }

  /** A fog keyword decides when nothing earlier matched. */
  lemma FogKeywords(main: Option<string>, icon: Option<string>)
    requires !Mentions(main, "thunder") && !Mentions(main, "drizzle") && !Mentions(main, "rain") && !Mentions(main, "snow")
    ensures (Mentions(main, "mist") || Mentions(main, "fog") || Mentions(main, "haze") || Mentions(main, "smoke"))
            <==> LibWeatherEmoji(main, icon) == Fog
  {
    if Truthy(main) {
      var m := Text.ToLower(main.value);
      if Text.Contains(m, "mist") { assert Text.Contains(m, LibFogWords[0]); }
      if Text.Contains(m, "fog") { assert Text.Contains(m, LibFogWords[1]); }
      if Text.Contains(m, "haze") { assert Text.Contains(m, LibFogWords[2]); }
      if Text.Contains(m, "smoke") { assert Text.Contains(m, LibFogWords[3]); }
    }
  }

  /** No keyword before `clear` in the precedence order. */
  ghost predicate NothingBeforeClear(main: Option<string>) {
    && !Mentions(main, "thunder") && !Mentions(main, "drizzle") && !Mentions(main, "rain")
    && !Mentions(main, "snow") && !Mentions(main, "mist") && !Mentions(main, "fog")
    && !Mentions(main, "haze") && !Mentions(main, "smoke")
  }

  /** Clear skies: the moon exactly when the icon code ends in `n` (so never without an icon), else the sun. */
  lemma ClearSky(main: Option<string>, icon: Option<string>)
    requires Mentions(main, "clear") && NothingBeforeClear(main)
    ensures LibWeatherEmoji(main, icon) == (if icon.Some? && Text.EndsWith(icon.value, 'n') then Moon else Sun)
  {
    NotFog(main);
  }

  /** Then `cloud`, then the default. */
  lemma CloudOrDefault(main: Option<string>, icon: Option<string>)
    requires Truthy(main) && !Mentions(main, "clear") && NothingBeforeClear(main)
    ensures LibWeatherEmoji(main, icon) == (if Mentions(main, "cloud") then Cloud else PartlySunny)
  {
    NotFog(main);
  }

  lemma NotFog(main: Option<string>)
    requires Truthy(main) && NothingBeforeClear(main)
    ensures !ContainsAny(Text.ToLower(main.value), LibFogWords)
  {
    var m := Text.ToLower(main.value);
    forall k | 0 <= k < |LibFogWords| ensures !Text.Contains(m, LibFogWords[k]) {
      assert LibFogWords[k] in {"mist", "fog", "haze", "smoke"};
    }
  }

  /** ASCII case does not matter: upper-casing the description's ASCII letters changes nothing. */
  lemma CaseInsensitive(main: string, icon: Option<string>)
    ensures LibWeatherEmoji(Some(Text.ToUpper(main)), icon) == LibWeatherEmoji(Some(main), icon)
    ensures PageWeatherEmoji(Some(Text.ToUpper(main)), icon) == PageWeatherEmoji(Some(main), icon)
  {
    var u := Text.ToUpper(main);
    Text.LowerForgetsCase(main);
    SameLowerSameEmoji(u, main, icon, LibFogWords);
    SameLowerSameEmoji(u, main, icon, PageFogWords);
  }

  /** The classifier sees `main` only through its truthiness and its lower-cased text. */
  lemma SameLowerSameEmoji(m1: string, m2: string, icon: Option<string>, fogWords: seq<string>)
    requires |m1| == |m2| && Text.ToLower(m1) == Text.ToLower(m2)
    ensures Classify(Some(m1), icon, fogWords) == Classify(Some(m2), icon, fogWords)
  {
  }

  /** `toLowerCase` maps the Kelvin sign to `k`, so "SMOKE" reads as smoke in the shared copy. */
  lemma KelvinSignSmoke()
    ensures LibWeatherEmoji(Some("SMO" + [Text.KelvinSign] + "E"), None) == Fog
  {
    var m := Text.ToLower("SMO" + [Text.KelvinSign] + "E");
    assert m == "smoke";
    assert Text.Contains(m, LibFogWords[3]);
  }

  /** The two copies disagree exactly on descriptions mentioning `smoke` and none of the earlier keywords. */
  lemma CopiesDifferOnlyOnSmoke(main: Option<string>, icon: Option<string>)
    ensures LibWeatherEmoji(main, icon) != PageWeatherEmoji(main, icon) <==>
            Mentions(main, "smoke") &&
            !Mentions(main, "thunder") && !Mentions(main, "drizzle") && !Mentions(main, "rain") &&
            !Mentions(main, "snow") && !Mentions(main, "mist") && !Mentions(main, "fog") && !Mentions(main, "haze")
  {
    if Truthy(main) {
      var m := Text.ToLower(main.value);
      if Text.Contains(m, "smoke") { assert Text.Contains(m, LibFogWords[3]); }
      if Text.Contains(m, "mist") { assert Text.Contains(m, LibFogWords[0]) && Text.Contains(m, PageFogWords[0]); }
      if Text.Contains(m, "fog") { assert Text.Contains(m, LibFogWords[1]) && Text.Contains(m, PageFogWords[1]); }
      if Text.Contains(m, "haze") { assert Text.Contains(m, LibFogWords[2]) && Text.Contains(m, PageFogWords[2]); }
    }
  }
}
