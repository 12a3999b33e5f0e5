# WeatherApp core in Dafny

This project models the logic of WeatherApp, an Android app that shows the
SMHI point forecast for a coordinate. The logic covered is:

- turning the service's JSON answer into hourly entries;
- grouping those entries into at most seven days;
- searching for places with a fallback geocoder;
- caching the last forecast and a list of favourites in `SharedPreferences`;
- the view model that publishes `Initial`, `Loading`, `Success` or `Error`;
- the weather-symbol icon and description tables;
- the keystroke filter of the coordinate fields.

Modules follow the Kotlin packages (paths under `app/src/main/java/se/kth/weatherapp/`):

- `WeatherData` holds the records of `data/model`, which have no logic.
- `WeatherParse` models `data/api/WeatherParse.kt`, which is pure.
- `WeatherRepository` models `data/repository/WeatherRepository.kt`. Each HTTP service is a function from its request to a `Response`.
- `Preferences` models `utils/PreferencesManager.kt` as a class over a `map<string, string>` store. The JSON adapters are `Codec` values, and their round trip is a hypothesis (`RoundTrips`).
- `ViewModel` models `viewmodel/WeatherViewModel.kt` as a class with the three state fields, the lateinit store, and a ghost history of every published `uiState`.
- `WeatherIconMapper` models `utils/WeatherIconMapper.kt`.
- `CoordinateInputFields` models the acceptance rule and the enabled rule of `ui/components/CoordinateInputFields.kt`.

Support modules:

- `Wrappers` holds `Option` and `Result`.
- `Kotlin` holds the library behaviour the code relies on: `Double.toInt()` saturating, `Int.toString()`, `isBlank`, `\d`, and the messages of the exceptions that reach the screen.
- `Lists` holds `filter`, `distinctBy` and `groupBy`, each with the property Kotlin documents for it. `Filter`'s contract states membership, and `FilterConcat` states that it keeps order. `Lists` also defines `FirstIndex`, the index `find` stops at. `WeatherParse.FindParamValue` writes out its own `find` over the parameters.

## Model

| member | source | states |
|---|---|---|
| Lists.Filter | app/src/main/java/se/kth/weatherapp/data/api/WeatherParse.kt:81 | the result holds exactly the elements satisfying the predicate, no more than the input |
| Lists.FilterConcat | app/src/main/java/se/kth/weatherapp/data/api/WeatherParse.kt:81 | filtering a concatenation is the concatenation of the filtered parts, so the kept elements stay in input order |
| Lists.DistinctBy | app/src/main/java/se/kth/weatherapp/data/api/WeatherParse.kt:89 | keys are distinct, every input key is kept, each kept element is the first with its key, kept in order of first appearance |
| Lists.GroupBy | app/src/main/java/se/kth/weatherapp/data/api/WeatherParse.kt:63 | distinct keys in order of first appearance; each group is exactly the elements with that key, in order; every element's key has a group |
| Kotlin.DoubleToInt | app/src/main/java/se/kth/weatherapp/data/api/WeatherParse.kt:46 | `Double.toInt()`: truncation toward zero, saturating at the 32-bit bounds |
| Kotlin.NatToString | app/src/main/java/se/kth/weatherapp/data/repository/WeatherRepository.kt:36 | decimal digits only, no leading zero, and the digits denote the number |
| Kotlin.IntToStringInjective | app/src/main/java/se/kth/weatherapp/data/repository/WeatherRepository.kt:36 | `Int.toString()` (a '-' for negatives, then the decimal digits) gives different numbers different strings |
| Kotlin.IntToStringSamples | app/src/main/java/se/kth/weatherapp/data/repository/WeatherRepository.kt:36 | 0, 404 and -7 print as "0", "404" and "-7" |
| Kotlin.TrimStart | app/src/main/java/se/kth/weatherapp/viewmodel/WeatherViewModel.kt:95 | the input without its leading whitespace: a suffix that starts with no whitespace character, every dropped character being whitespace |
| Kotlin.BlankIffTrimmedEmpty | app/src/main/java/se/kth/weatherapp/viewmodel/WeatherViewModel.kt:95 | `isBlank()` (every character whitespace, so also the empty string) holds exactly when nothing is left after trimming leading whitespace |
| Kotlin.BlankSamples | app/src/main/java/se/kth/weatherapp/viewmodel/WeatherViewModel.kt:95 | "", spaces, tabs, newlines and U+3000 are blank; a query holding a letter or a digit is not |
| Kotlin.Message | app/src/main/java/se/kth/weatherapp/data/repository/WeatherRepository.kt:36 | the message of each failure: "API error: <code>", "Inga platser hittades", the bounds message, or a transport exception's own (possibly null) message |
| WeatherParse.FindParamValue | app/src/main/java/se/kth/weatherapp/data/api/WeatherParse.kt:54-56 | null when no parameter has the name; otherwise the first value of the first parameter with that name, null when that one has no values |
| WeatherParse.FirstParameterDecides | app/src/main/java/se/kth/weatherapp/data/api/WeatherParse.kt:55 | the first parameter with the name decides, whatever follows |
| WeatherParse.EmptyFirstParameterHidesLater | app/src/main/java/se/kth/weatherapp/data/api/WeatherParse.kt:55 | a first `t` with no values gives null even when a later `t` has one |
| WeatherParse.CloudPercent | app/src/main/java/se/kth/weatherapp/data/api/WeatherParse.kt:41 | for 0..8 oktas, a percentage in 0..100 equal to oktas × 12.5 truncated |
| WeatherParse.CloudPercentExamples | app/src/main/java/se/kth/weatherapp/data/api/WeatherParse.kt:41 | 0, 4, 8, 1 and 7 oktas give 0, 50, 100, 12 and 87 % |
| WeatherParse.CloudPercentMonotonic | app/src/main/java/se/kth/weatherapp/data/api/WeatherParse.kt:41 | more cloud never gives a smaller percentage |
| WeatherParse.ExtractHourlyData | app/src/main/java/se/kth/weatherapp/data/api/WeatherParse.kt:37-49 | time is `validTime`; temperature is the `find` value of `t` or 0.0; the symbol is `toInt` of the `Wsymb2` value or 1; cloud cover is the percentage of the `tcc_mean` value or of 0.0. A null lookup gives the default, both when no parameter has the name and when the first one has no values. Cloud cover is in 0..100 when the oktas are in 0..8 |
| WeatherParse.OtherParametersIgnored | app/src/main/java/se/kth/weatherapp/data/api/WeatherParse.kt:40-46 | a parameter named other than `t`, `Wsymb2` and `tcc_mean` does not change the hourly entry |
| WeatherParse.OtherParameterSkipped | app/src/main/java/se/kth/weatherapp/data/api/WeatherParse.kt:55 | `find` passes over a parameter with another name |
| WeatherParse.ParseWeatherData | app/src/main/java/se/kth/weatherapp/data/api/WeatherParse.kt:13-32 | fails, with the bounds error, exactly when the first coordinate pair has fewer than two numbers; otherwise the name given, longitude and latitude from elements 0 and 1 of the first pair (0.0 without pairs), one hourly entry per time step in order |
| WeatherParse.GroupForecastsByDay | app/src/main/java/se/kth/weatherapp/data/api/WeatherParse.kt:61-73 | at most 7 days with distinct dates, in order of first appearance; each day holds exactly that date's entries and the symbol of entry 12 (entry 0 when fewer than 13); every entry's date is kept unless 7 earlier dates fill the cap |
| WeatherParse.GroupForecastsByDayCovers | app/src/main/java/se/kth/weatherapp/data/api/WeatherParse.kt:72 | a date dropped by `take(7)` first appears after all seven kept dates |
| WeatherParse.DayKeptOrCapped | app/src/main/java/se/kth/weatherapp/data/api/WeatherParse.kt:62-72 | one entry's date is a kept day, or seven days first seen before it were kept |
| WeatherParse.AllDaysKeptBelowCap | app/src/main/java/se/kth/weatherapp/data/api/WeatherParse.kt:72 | with fewer than seven days, every entry's date is a day |
| WeatherParse.PlaceLocations | app/src/main/java/se/kth/weatherapp/data/api/WeatherParse.kt:80-88 | location i is made, with name, lat and lon, from hit i of the filtered hits; every hit of a kept category becomes a location, and nothing else does |
| WeatherParse.PlaceLocationsCons | app/src/main/java/se/kth/weatherapp/data/api/WeatherParse.kt:80-88 | the first hit gives exactly one location, ahead of those of the rest, when its category is kept, and none otherwise; so there is one location per kept hit, in input order |
| WeatherParse.FirstPlaceHit | app/src/main/java/se/kth/weatherapp/data/api/WeatherParse.kt:80-88 | a name is among the places exactly when a kept hit has it; its first place is made from the first such hit |
| WeatherParse.PlaceHitsInOrder | app/src/main/java/se/kth/weatherapp/data/api/WeatherParse.kt:80-88 | two names' first places come in the same order as their first kept hits in the input |
| WeatherParse.ParseLocations | app/src/main/java/se/kth/weatherapp/data/api/WeatherParse.kt:79-90 | distinct names; only locations from hits of the three kept categories; every such hit's name is present |
| WeatherParse.FirstHitOfEachName | app/src/main/java/se/kth/weatherapp/data/api/WeatherParse.kt:79-90 | each returned location is made from the first hit in the search results of a kept category with its name |
| WeatherParse.NamesInFirstHitOrder | app/src/main/java/se/kth/weatherapp/data/api/WeatherParse.kt:79-90 | the returned names come in the order of their first kept hits in the search results |
| WeatherParse.FirstHitsOfTwoNames | app/src/main/java/se/kth/weatherapp/data/api/WeatherParse.kt:79-90 | names ordered by their first places are ordered by their first kept hits |
| WeatherParse.FirstHitOfOneName | app/src/main/java/se/kth/weatherapp/data/api/WeatherParse.kt:79-90 | a name's first place is made from its first kept hit |
| WeatherParse.EveryPlaceNameKept | app/src/main/java/se/kth/weatherapp/data/api/WeatherParse.kt:89 | `distinctBy` loses no name |
| WeatherParse.DuplicateLocalityKeptOnce | app/src/main/java/se/kth/weatherapp/data/api/WeatherParse.kt:89 | two `Stockholm` localities give one location, the first |
| WeatherParse.OtherCategoryDropped | app/src/main/java/se/kth/weatherapp/data/api/WeatherParse.kt:81 | a hit of another category is dropped |
| WeatherRepository.FetchForecastForCoordinates | app/src/main/java/se/kth/weatherapp/data/repository/WeatherRepository.kt:23-42 | asks with longitude first; a thrown exception is the failure; a 2xx answer with a body is parsed; anything else fails with the status code |
| WeatherRepository.ForecastCoordinatesFromResponse | app/src/main/java/se/kth/weatherapp/data/repository/WeatherRepository.kt:29-33 | a fetched forecast's coordinates come from the answer, not from the request |
| WeatherRepository.ApiErrorMessage | app/src/main/java/se/kth/weatherapp/data/repository/WeatherRepository.kt:34-36 | a failed call's message is "API error: " and the code |
| WeatherRepository.PrimaryHits | app/src/main/java/se/kth/weatherapp/data/repository/WeatherRepository.kt:52-63 | the primary search is used exactly when it answers 2xx with a body that parses to at least one location |
| WeatherRepository.FallbackName | app/src/main/java/se/kth/weatherapp/data/repository/WeatherRepository.kt:70 | "<name>, <admin1>", or the bare name without admin1; the name is always a prefix |
| WeatherRepository.FallbackLocation | app/src/main/java/se/kth/weatherapp/data/repository/WeatherRepository.kt:69-73 | the formatted name with the result's coordinates |
| WeatherRepository.FallbackResult | app/src/main/java/se/kth/weatherapp/data/repository/WeatherRepository.kt:65-84 | a thrown exception is the failure; no usable results list gives "Inga platser hittades"; otherwise one location per result, in order |
| WeatherRepository.SearchLocationsByName | app/src/main/java/se/kth/weatherapp/data/repository/WeatherRepository.kt:48-85 | the primary's locations when it finds any, otherwise the fallback's answer |
| WeatherRepository.FallbackUnusedWhenPrimaryFinds | app/src/main/java/se/kth/weatherapp/data/repository/WeatherRepository.kt:58 | once the primary finds something, the geocoder's answer makes no difference |
| WeatherRepository.PrimaryIgnoredWhenItFindsNothing | app/src/main/java/se/kth/weatherapp/data/repository/WeatherRepository.kt:61-65 | a primary that throws, fails or finds nothing are all the same to the result |
| WeatherRepository.SearchSuccessIsOneSource | app/src/main/java/se/kth/weatherapp/data/repository/WeatherRepository.kt:55-76 | a successful search is wholly the primary's distinct names or wholly the fallback's results, never a mix |
| WeatherRepository.SearchFailure | app/src/main/java/se/kth/weatherapp/data/repository/WeatherRepository.kt:77-84 | the search fails exactly when neither source is usable, with the geocoder's exception or "Inga platser hittades" |
| WeatherRepository.DuplicatePrimaryHitsCollapse | app/src/main/java/se/kth/weatherapp/data/repository/WeatherRepository.kt:55-58 | two primary `Stockholm` hits give one location |
| Preferences.HasFavoriteNamed | app/src/main/java/se/kth/weatherapp/utils/PreferencesManager.kt:76 | `any { it.name == name }`: some favourite has the name |
| Preferences.WithFavorite | app/src/main/java/se/kth/weatherapp/utils/PreferencesManager.kt:74-80 | a taken name leaves the list as it is; a new name is appended at the end; the name is then present; names that were unique stay unique |
| Preferences.WithoutFavorite | app/src/main/java/se/kth/weatherapp/utils/PreferencesManager.kt:85-89 | exactly the favourites of other names remain; the name is absent; uniqueness is kept |
| Preferences.RemoveKeepsUnique | app/src/main/java/se/kth/weatherapp/utils/PreferencesManager.kt:87 | removal keeps names unique |
| Preferences.CountNamedZero | app/src/main/java/se/kth/weatherapp/utils/PreferencesManager.kt:76 | no favourite has the name exactly when its count is zero |
| Preferences.UniqueNamesCountAtMostOne | app/src/main/java/se/kth/weatherapp/utils/PreferencesManager.kt:76 | with unique names, each name occurs at most once |
| Preferences.CountNamedSnoc | app/src/main/java/se/kth/weatherapp/utils/PreferencesManager.kt:77 | appending adds one to its own name's count and nothing to the others |
| Preferences.AddedNameOccursOnce | app/src/main/java/se/kth/weatherapp/utils/PreferencesManager.kt:76-78 | after adding to a list of unique names the name occurs exactly once |
| Preferences.AddTwiceIsAddOnce | app/src/main/java/se/kth/weatherapp/utils/PreferencesManager.kt:76 | adding is idempotent |
| Preferences.TakenNameKeepsCoordinates | app/src/main/java/se/kth/weatherapp/utils/PreferencesManager.kt:76 | a second location with a taken name does not overwrite the stored coordinates |
| Preferences.RemoveKeepsOrder | app/src/main/java/se/kth/weatherapp/utils/PreferencesManager.kt:87 | removal distributes over concatenation, so the others keep their order |
| Preferences.RemoveAbsentName | app/src/main/java/se/kth/weatherapp/utils/PreferencesManager.kt:87 | removing an absent name changes nothing |
| Preferences.RemoveUndoesAdd | app/src/main/java/se/kth/weatherapp/utils/PreferencesManager.kt:74-89 | removing a newly added name restores the list |
| Preferences.PreferencesManager.constructor | app/src/main/java/se/kth/weatherapp/utils/PreferencesManager.kt:14-23 | the store starts from the given entries with the two adapters |
| Preferences.PreferencesManager.GetLastForecast | app/src/main/java/se/kth/weatherapp/utils/PreferencesManager.kt:37-45 | null without the key or when decoding fails or gives null; the decoded forecast otherwise |
| Preferences.PreferencesManager.GetFavorites | app/src/main/java/se/kth/weatherapp/utils/PreferencesManager.kt:60-69 | empty without the key or when decoding fails or gives null; the decoded list otherwise |
| Preferences.PreferencesManager.SaveLastForecast | app/src/main/java/se/kth/weatherapp/utils/PreferencesManager.kt:28-32 | writes only `last_forecast`; with a round-tripping adapter it reads back as saved; favourites unchanged |
| Preferences.PreferencesManager.SaveFavorites | app/src/main/java/se/kth/weatherapp/utils/PreferencesManager.kt:50-55 | writes only `favorites`; with a round-tripping adapter it reads back as saved; last forecast unchanged |
| Preferences.PreferencesManager.AddFavorite | app/src/main/java/se/kth/weatherapp/utils/PreferencesManager.kt:74-80 | no write at all for a taken name; otherwise the list with the favourite appended; the stored list becomes `WithFavorite` of the old one |
| Preferences.PreferencesManager.RemoveFavorite | app/src/main/java/se/kth/weatherapp/utils/PreferencesManager.kt:85-89 | always writes; the stored list becomes `WithoutFavorite` of the old one |
| ViewModel.ErrorText | app/src/main/java/se/kth/weatherapp/viewmodel/WeatherViewModel.kt:84 | the failure's message, or "Okänt fel" when it is null |
| ViewModel.OfflineStates | app/src/main/java/se/kth/weatherapp/viewmodel/WeatherViewModel.kt:58-70 | offline: the cached forecast marked offline, or "Ingen internetanslutning och ingen cachad data" without a cache |
| ViewModel.OnlineStates | app/src/main/java/se/kth/weatherapp/viewmodel/WeatherViewModel.kt:72-86 | online: the fetched forecast marked online, or the failure's text |
| ViewModel.AfterLoading | app/src/main/java/se/kth/weatherapp/viewmodel/WeatherViewModel.kt:56-87 | at most one state follows `Loading`, never `Initial` or `Loading`; none only when grouping the days throws |
| ViewModel.OfflineIgnoresNetwork | app/src/main/java/se/kth/weatherapp/viewmodel/WeatherViewModel.kt:58-69 | offline, the network's answer makes no difference |
| ViewModel.OnlineIgnoresCache | app/src/main/java/se/kth/weatherapp/viewmodel/WeatherViewModel.kt:72 | online, the cache makes no difference |
| ViewModel.OfflineFlagMeansCache | app/src/main/java/se/kth/weatherapp/viewmodel/WeatherViewModel.kt:64 | `isOffline` is set exactly on a success shown from the cache |
| ViewModel.ToFavorite | app/src/main/java/se/kth/weatherapp/viewmodel/WeatherViewModel.kt:130-134 | a favourite with the location's name and coordinates |
| ViewModel.WeatherViewModel.constructor | app/src/main/java/se/kth/weatherapp/viewmodel/WeatherViewModel.kt:27-36 | `Initial`, no results, no favourites, no store yet |
| ViewModel.WeatherViewModel.Initialize | app/src/main/java/se/kth/weatherapp/viewmodel/WeatherViewModel.kt:41-44 | takes the store and loads its favourites |
| ViewModel.WeatherViewModel.Publish | app/src/main/java/se/kth/weatherapp/viewmodel/WeatherViewModel.kt:56 | a new `uiState` is appended to the history, which never returns to `Initial` |
| ViewModel.WeatherViewModel.LoadFavorites | app/src/main/java/se/kth/weatherapp/viewmodel/WeatherViewModel.kt:122-124 | `favorites` becomes the stored list |
| ViewModel.WeatherViewModel.FetchWeatherByCoordinates | app/src/main/java/se/kth/weatherapp/viewmodel/WeatherViewModel.kt:49-88 | publishes `Loading`, then `AfterLoading` of connectivity, the cache and the fetch; caches exactly an online success, before grouping; results and favourites unchanged |
| ViewModel.WeatherViewModel.PublishOffline | app/src/main/java/se/kth/weatherapp/viewmodel/WeatherViewModel.kt:59-69 | publishes `OfflineStates` of the cache |
| ViewModel.WeatherViewModel.PublishOnline | app/src/main/java/se/kth/weatherapp/viewmodel/WeatherViewModel.kt:74-86 | publishes `OnlineStates` of the result |
| ViewModel.WeatherViewModel.SearchLocations | app/src/main/java/se/kth/weatherapp/viewmodel/WeatherViewModel.kt:93-110 | a blank query clears the results without searching; otherwise the search's locations, or none on failure; nothing else changes |
| ViewModel.WeatherViewModel.ClearSearchResults | app/src/main/java/se/kth/weatherapp/viewmodel/WeatherViewModel.kt:115-117 | the results become empty, nothing else changes |
| ViewModel.WeatherViewModel.AddToFavorites | app/src/main/java/se/kth/weatherapp/viewmodel/WeatherViewModel.kt:129-137 | `favorites` is reloaded from the store; with a round-tripping adapter it is `WithFavorite` of the old list and the name is a favourite |
| ViewModel.WeatherViewModel.RemoveFromFavorites | app/src/main/java/se/kth/weatherapp/viewmodel/WeatherViewModel.kt:142-145 | `favorites` is reloaded; with a round-tripping adapter it is `WithoutFavorite` of the old list and the name is no favourite |
| ViewModel.WeatherViewModel.IsFavorite | app/src/main/java/se/kth/weatherapp/viewmodel/WeatherViewModel.kt:150-152 | some favourite has the name |
| WeatherIconMapper.GetWeatherIcon | app/src/main/java/se/kth/weatherapp/utils/WeatherIconMapper.kt:15-27 | which symbols get each icon, as an if-and-only-if per icon; off the table `WbCloudy` |
| WeatherIconMapper.GetWeatherDescription | app/src/main/java/se/kth/weatherapp/utils/WeatherIconMapper.kt:32-51 | total; "Okänt" exactly outside 1..21 |
| WeatherIconMapper.UnknownSymbolLooksCloudy | app/src/main/java/se/kth/weatherapp/utils/WeatherIconMapper.kt:18-25 | an unknown symbol is drawn like 3 and 4 but described differently |
| WeatherIconMapper.PrecipitationIcons | app/src/main/java/se/kth/weatherapp/utils/WeatherIconMapper.kt:21-24 | 8..10 and 19..21 share `Grain` |
| WeatherIconMapper.SharedDescriptions | app/src/main/java/se/kth/weatherapp/utils/WeatherIconMapper.kt:34-49 | two different known symbols share a description exactly within 5–6, 12–14, 15–16, 17–18 or 19–21 |
| WeatherIconMapper.DescriptionDeterminesIcon | app/src/main/java/se/kth/weatherapp/utils/WeatherIconMapper.kt:15-51 | the same description always means the same icon |
| WeatherIconMapper.SunnySymbolsDiffer | app/src/main/java/se/kth/weatherapp/utils/WeatherIconMapper.kt:17 | 1 and 2 share `WbSunny` but read "Klart" and "Nästan klart" |
| CoordinateInputFields.Matches | app/src/main/java/se/kth/weatherapp/ui/components/CoordinateInputFields.kt:27 | the scanner accepts exactly the language of `^-?\d*\.?\d*$` |
| CoordinateInputFields.MatchesIsPattern | app/src/main/java/se/kth/weatherapp/ui/components/CoordinateInputFields.kt:27 | both directions: an accepted value splits into sign, digits, point, digits, and every such value is accepted |
| CoordinateInputFields.MatchesCharacters | app/src/main/java/se/kth/weatherapp/ui/components/CoordinateInputFields.kt:27 | accepted exactly when a `-` appears only at index 0, at most one `.` appears, and all else are ASCII digits |
| CoordinateInputFields.MatchesPrefixClosed | app/src/main/java/se/kth/weatherapp/ui/components/CoordinateInputFields.kt:27 | every prefix of an accepted value is accepted |
| CoordinateInputFields.AcceptedWithoutDigits | app/src/main/java/se/kth/weatherapp/ui/components/CoordinateInputFields.kt:27 | `-`, `.` and `-.` are accepted though they hold no digit |
| CoordinateInputFields.SampleValues | app/src/main/java/se/kth/weatherapp/ui/components/CoordinateInputFields.kt:43 | sample values accepted and refused |
| CoordinateInputFields.OnValueChange | app/src/main/java/se/kth/weatherapp/ui/components/CoordinateInputFields.kt:26-30 | an empty or matching value is forwarded; otherwise the field keeps its value; both fields use this one rule |
| CoordinateInputFields.FieldStaysAccepted | app/src/main/java/se/kth/weatherapp/ui/components/CoordinateInputFields.kt:42-46 | a field that holds an accepted value keeps holding one |
| CoordinateInputFields.EmptyTestRedundant | app/src/main/java/se/kth/weatherapp/ui/components/CoordinateInputFields.kt:27 | the `isEmpty()` test adds nothing, since the empty value matches |
| CoordinateInputFields.SubmitEnabled | app/src/main/java/se/kth/weatherapp/ui/components/CoordinateInputFields.kt:59 | enabled exactly when both fields are non-empty |
| CoordinateInputFields.EnabledWithoutNumbers | app/src/main/java/se/kth/weatherapp/ui/components/CoordinateInputFields.kt:59 | the button can be enabled by `-` and `.`, so enabled does not mean numeric |

## Left out

- HTTP, Retrofit and JSON decoding of answers: each service is a function returning a `Response`. Connectivity (`NetworkUtils`) is a boolean input.
- Moshi: the two adapters are opaque `Codec` values. Read-back facts are stated under the hypothesis `RoundTrips`.
- `SharedPreferences.apply()` is asynchronous and can fail to persist; the model writes synchronously.
- Coroutine scheduling: each launched body runs to completion before the next, so two overlapping fetches or searches do not interleave.
- Logging (`Log.d`, `Log.w`, `Log.e`) has no effect on the result.
- The geocoding query's `count=10` and `language` parameters live in the service interface; they are part of the `GeocodingApi` function, not modelled.
- IEEE-754: reals are exact. NaN and infinities are not modelled, including `NaN.toInt() == 0`; `DoubleToInt` covers truncation and saturation only.
- ViewModel.AfterLoading: a forecast whose times are shorter than ten characters makes `substring(0, 10)` throw inside the coroutine. The model publishes nothing further; what the uncaught exception then does to the app is outside the model.
- ViewModel.WeatherViewModel.FetchWeatherByCoordinates: `prefsManager` is `lateinit`, and using it before `initialize` throws. The model requires `prefsManager != null`. Offline and on the success path the source would throw; only the online failure path does not touch the store, and it too is required to have one.
- ViewModel.WeatherViewModel.AddToFavorites and RemoveFromFavorites: a round trip is assumed of the adapter to state the list's new contents; without it only the reload is stated.
- Kotlin.Message: an IndexOutOfBounds message is given as "Index i out of bounds for length n"; the exact JVM wording may differ.
- The default `locationName = "Unknown"` of `fetchForecastForCoordinates` is not used by the view model and is not modelled.
- Fields of the service records that the core never reads (`approvedTime`, `referenceTime`, `levelType`, `level`, `unit`, `country`) are kept in the datatypes but constrain nothing.
- The Compose layout of the screens and components, and the screen's `toDoubleOrNull` re-check (`ui/screens/WeatherScreen.kt`), are not part of this model.
