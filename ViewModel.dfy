/**
 * `WeatherViewModel`: the screen's state (`uiState`, `searchResults`,
 * `favorites`) and the operations that update it. Each coroutine body runs
 * to completion before the next starts; connectivity and the services are
 * inputs.
 */
module ViewModel {
  import opened Wrappers
  import opened Kotlin
  import opened WeatherData
  import WeatherParse
  import WeatherRepository
  import Preferences

  /** `WeatherUiState`. */
  datatype WeatherUiState =
    | Initial
    | Loading
    | Success(forecast: WeatherForecast, dailyForecasts: seq<DailyForecast>, isOffline: bool)
    | Error(message: string)

  const NoConnectionNoCache: string := "Ingen internetanslutning och ingen cachad data"
  const UnknownError: string := "Okänt fel"

  /** `error.message ?: "Okänt fel"`. */
  function ErrorText(e: Exception): (text: string)
    ensures Message(e).Some? ==> text == Message(e).value
    ensures Message(e).None? ==> text == UnknownError
    ensures !e.Transport? ==> text == Message(e).value
  {
    Message(e).GetOr(UnknownError)
  }

  /**
   * The states an offline fetch publishes after `Loading`: the cached
   * forecast marked offline, or an error when nothing is cached. A cached
   * forecast whose times are too short for `groupForecastsByDay` makes it
   * throw in the coroutine, and nothing further is published.
   */
  function OfflineStates(cached: Option<WeatherForecast>): (states: seq<WeatherUiState>)
    ensures cached.Some? && WeatherParse.HasDates(cached.value.forecasts) ==>
      states == [WeatherUiState.Success(cached.value, WeatherParse.GroupForecastsByDay(cached.value.forecasts), true)]
    ensures cached.None? ==> states == [Error(NoConnectionNoCache)]
    ensures |states| == 0 <==> cached.Some? && !WeatherParse.HasDates(cached.value.forecasts)
  {
    match cached
    case Some(c) =>
      if WeatherParse.HasDates(c.forecasts) then
        [WeatherUiState.Success(c, WeatherParse.GroupForecastsByDay(c.forecasts), true)]
      else []
    case None => [Error(NoConnectionNoCache)]
  }

  /**
   * The states an online fetch publishes after `Loading`: the fetched
   * forecast marked online, or the failure's message.
   */
  function OnlineStates(fetched: Result<WeatherForecast, Exception>): (states: seq<WeatherUiState>)
    ensures fetched.Success? && WeatherParse.HasDates(fetched.value.forecasts) ==>
      states == [WeatherUiState.Success(fetched.value, WeatherParse.GroupForecastsByDay(fetched.value.forecasts), false)]
    ensures fetched.Failure? ==> states == [Error(ErrorText(fetched.error))]
    ensures |states| == 0 <==> fetched.Success? && !WeatherParse.HasDates(fetched.value.forecasts)
  {
    match fetched
    case Success(f) =>
      if WeatherParse.HasDates(f.forecasts) then
        [WeatherUiState.Success(f, WeatherParse.GroupForecastsByDay(f.forecasts), false)]
      else []
    case Failure(e) => [Error(ErrorText(e))]
  }

  /**
   * The states one fetch publishes after `Loading`, given connectivity, the
   * cached forecast and the network outcome (consulted only when online).
   */
  function AfterLoading(online: bool, cached: Option<WeatherForecast>, fetched: Result<WeatherForecast, Exception>): (states: seq<WeatherUiState>)
    ensures |states| <= 1
    ensures forall i :: 0 <= i < |states| ==> states[i] != Initial && states[i] != Loading
    ensures !online && cached.Some? && WeatherParse.HasDates(cached.value.forecasts) ==>
      states == [WeatherUiState.Success(cached.value, WeatherParse.GroupForecastsByDay(cached.value.forecasts), true)]
    ensures !online && cached.None? ==> states == [Error(NoConnectionNoCache)]
    ensures online && fetched.Success? && WeatherParse.HasDates(fetched.value.forecasts) ==>
      states == [WeatherUiState.Success(fetched.value, WeatherParse.GroupForecastsByDay(fetched.value.forecasts), false)]
    ensures online && fetched.Failure? ==> states == [Error(ErrorText(fetched.error))]
    ensures |states| == 0 <==>
      (!online && cached.Some? && !WeatherParse.HasDates(cached.value.forecasts))
      || (online && fetched.Success? && !WeatherParse.HasDates(fetched.value.forecasts))
  {
    if online then OnlineStates(fetched) else OfflineStates(cached)
  }

  /** Offline, the network is not consulted: the outcome does not depend on it. */
  lemma {:induction false} OfflineIgnoresNetwork(cached: Option<WeatherForecast>, f1: Result<WeatherForecast, Exception>, f2: Result<WeatherForecast, Exception>)
    ensures AfterLoading(false, cached, f1) == AfterLoading(false, cached, f2)
  {
  }

  /** Online, the cache is not consulted. */
  lemma {:induction false} OnlineIgnoresCache(c1: Option<WeatherForecast>, c2: Option<WeatherForecast>, fetched: Result<WeatherForecast, Exception>)
    ensures AfterLoading(true, c1, fetched) == AfterLoading(true, c2, fetched)
  {
  }

  /** A published success marks exactly the offline case. */
  lemma {:induction false} OfflineFlagMeansCache(online: bool, cached: Option<WeatherForecast>, fetched: Result<WeatherForecast, Exception>)
    ensures var states := AfterLoading(online, cached, fetched);
      forall i :: 0 <= i < |states| && states[i].Success? ==>
        (states[i].isOffline <==> !online)
        && (!online ==> cached == Some(states[i].forecast))
        && (online ==> fetched == Result.Success(states[i].forecast))
  {
  }

  /** The state shown: never `Initial` again once anything has been published. */
  ghost predicate History(published: seq<WeatherUiState>, current: WeatherUiState) {
    && |published| > 0
    && published[0] == Initial
    && (forall i :: 0 < i < |published| ==> published[i] != Initial)
    && published[|published| - 1] == current
  }

  function ToFavorite(location: Location): (f: FavoriteLocation)
    ensures f.name == location.name && f.latitude == location.latitude && f.longitude == location.longitude
  {
    FavoriteLocation(location.name, location.latitude, location.longitude)
  }

  class WeatherViewModel {
    var uiState: WeatherUiState
    var searchResults: seq<Location>
    var favorites: seq<FavoriteLocation>
    /** `lateinit`: null until `initialize`. */
    var prefsManager: Preferences.PreferencesManager?
    /** Every value `uiState` has held, oldest first. */
    ghost var published: seq<WeatherUiState>

    ghost predicate Valid()
      reads this, prefsManager
    {
      && History(published, uiState)
      && (prefsManager == null ==> favorites == [])
      && (prefsManager != null ==> favorites == prefsManager.GetFavorites())
    }

    constructor()
      ensures Valid()
      ensures uiState == Initial && searchResults == [] && favorites == [] && prefsManager == null
      ensures published == [Initial]
    {
      uiState := Initial;
      searchResults := [];
      favorites := [];
      prefsManager := null;
      published := [Initial];
    }

    /** `initialize`: takes the store and loads the favourites from it. */
    method Initialize(manager: Preferences.PreferencesManager)
      requires Valid()
      modifies this
      ensures Valid()
      ensures prefsManager == manager && favorites == manager.GetFavorites()
      ensures uiState == old(uiState) && searchResults == old(searchResults) && published == old(published)
    {
      prefsManager := manager;
      LoadFavorites();
    }

    /** `_uiState.value = state`. */
    method Publish(state: WeatherUiState)
      requires state != Initial && History(published, uiState)
      modifies this
      ensures History(published, uiState)
      ensures uiState == state && published == old(published) + [state]
      ensures searchResults == old(searchResults) && favorites == old(favorites) && prefsManager == old(prefsManager)
    {
      uiState := state;
      published := published + [state];
    }

    /** `loadFavorites`: `favorites` becomes the stored list. */
    method LoadFavorites()
      requires prefsManager != null
      modifies this
      ensures prefsManager == old(prefsManager) && favorites == prefsManager.GetFavorites()
      ensures uiState == old(uiState) && searchResults == old(searchResults) && published == old(published)
    {
      favorites := prefsManager.GetFavorites();
    }

    /**
     * `fetchWeatherByCoordinates`: publishes `Loading`, then the outcome.
     * Offline it shows the cached forecast or an error; online it asks the
     * repository and, on success, caches the forecast before showing it.
     */
    method FetchWeatherByCoordinates(latitude: real, longitude: real, locationName: string, online: bool, weatherApi: WeatherRepository.WeatherApi)
      requires Valid() && prefsManager != null
      modifies this, prefsManager
      ensures Valid()
      ensures prefsManager == old(prefsManager)
      ensures searchResults == old(searchResults) && favorites == old(favorites)
      ensures published == old(published) + [Loading] +
        AfterLoading(online, old(prefsManager.GetLastForecast()),
          WeatherRepository.FetchForecastForCoordinates(weatherApi, latitude, longitude, locationName))
      ensures var fetched := WeatherRepository.FetchForecastForCoordinates(weatherApi, latitude, longitude, locationName);
        online && fetched.Success? ==>
          prefsManager.prefs == old(prefsManager.prefs)[Preferences.LastForecastKey := prefsManager.forecastCodec.encode(fetched.value)]
      ensures var fetched := WeatherRepository.FetchForecastForCoordinates(weatherApi, latitude, longitude, locationName);
        !(online && fetched.Success?) ==> prefsManager.prefs == old(prefsManager.prefs)
    {
      Publish(Loading);
      if !online {
        var cachedData := prefsManager.GetLastForecast();
        PublishOffline(cachedData);
        return;
      }
      var result := WeatherRepository.FetchForecastForCoordinates(weatherApi, latitude, longitude, locationName);
      if result.Success? {
        prefsManager.SaveLastForecast(result.value);
      }
      PublishOnline(result);
    }

    /** The offline branch of `fetchWeatherByCoordinates`, after `Loading`. */
    method PublishOffline(cachedData: Option<WeatherForecast>)
      requires History(published, uiState)
      modifies this
      ensures History(published, uiState)
      ensures published == old(published) + OfflineStates(cachedData)
      ensures searchResults == old(searchResults) && favorites == old(favorites) && prefsManager == old(prefsManager)
    {
      match cachedData
      case Some(c) =>
        if !WeatherParse.HasDates(c.forecasts) {
          // `groupForecastsByDay` throws on a time shorter than ten characters
          return;
        }
        Publish(WeatherUiState.Success(c, WeatherParse.GroupForecastsByDay(c.forecasts), true));
      case None =>
        Publish(Error(NoConnectionNoCache));
    }

    /** The online branch of `fetchWeatherByCoordinates`, once the result is cached. */
    method PublishOnline(result: Result<WeatherForecast, Exception>)
      requires History(published, uiState)
      modifies this
      ensures History(published, uiState)
      ensures published == old(published) + OnlineStates(result)
      ensures searchResults == old(searchResults) && favorites == old(favorites) && prefsManager == old(prefsManager)
    {
      match result
      case Success(forecast) =>
        if !WeatherParse.HasDates(forecast.forecasts) {
          return;
        }
        Publish(WeatherUiState.Success(forecast, WeatherParse.GroupForecastsByDay(forecast.forecasts), false));
      case Failure(error) =>
        Publish(Error(ErrorText(error)));
    }

    /**
     * `searchLocations`: a blank query clears the results without a search;
     * otherwise the results become the search's locations, or empty on
     * failure.
     */
    method SearchLocations(query: string, locationApi: WeatherRepository.LocationApi, geocodingApi: WeatherRepository.GeocodingApi)
      requires Valid()
      modifies this
      ensures Valid()
      ensures IsBlank(query) ==> searchResults == []
      ensures !IsBlank(query) ==>
        var r := WeatherRepository.SearchLocationsByName(locationApi, geocodingApi, query);
        (r.Success? ==> searchResults == r.value) && (r.Failure? ==> searchResults == [])
      ensures uiState == old(uiState) && published == old(published)
      ensures favorites == old(favorites) && prefsManager == old(prefsManager)
    {
      if IsBlank(query) {
        searchResults := [];
        return;
      }
      var result := WeatherRepository.SearchLocationsByName(locationApi, geocodingApi, query);
      match result
      case Success(locations) =>
        searchResults := locations;
      case Failure(_) =>
        searchResults := [];
    }

    /** `clearSearchResults`. */
    method ClearSearchResults()
      requires Valid()
      modifies this
      ensures Valid()
      ensures searchResults == []
      ensures uiState == old(uiState) && published == old(published)
      ensures favorites == old(favorites) && prefsManager == old(prefsManager)
    {
      searchResults := [];
    }

    /** `addToFavorites`: stores the location as a favourite and reloads the list. */
    method AddToFavorites(location: Location)
      requires Valid() && prefsManager != null
      modifies this, prefsManager
      ensures Valid()
      ensures prefsManager == old(prefsManager) && favorites == prefsManager.GetFavorites()
      ensures Preferences.RoundTrips(prefsManager.favoritesCodec) ==>
        favorites == Preferences.WithFavorite(old(favorites), ToFavorite(location))
        && IsFavorite(location.name)
      ensures prefsManager.GetLastForecast() == old(prefsManager.GetLastForecast())
      ensures uiState == old(uiState) && published == old(published) && searchResults == old(searchResults)
    {
      var favorite := ToFavorite(location);
      prefsManager.AddFavorite(favorite);
      LoadFavorites();
    }

    /** `removeFromFavorites`: drops every favourite of that name and reloads the list. */
    method RemoveFromFavorites(locationName: string)
      requires Valid() && prefsManager != null
      modifies this, prefsManager
      ensures Valid()
      ensures prefsManager == old(prefsManager) && favorites == prefsManager.GetFavorites()
      ensures Preferences.RoundTrips(prefsManager.favoritesCodec) ==>
        favorites == Preferences.WithoutFavorite(old(favorites), locationName)
        && !IsFavorite(locationName)
      ensures prefsManager.GetLastForecast() == old(prefsManager.GetLastForecast())
      ensures uiState == old(uiState) && published == old(published) && searchResults == old(searchResults)
    {
      prefsManager.RemoveFavorite(locationName);
      LoadFavorites();
    }

    /** `isFavorite`: some favourite has that name. */
    function IsFavorite(locationName: string): (b: bool)
      reads this
      ensures b <==> exists i :: 0 <= i < |favorites| && favorites[i].name == locationName
    {
      Preferences.HasFavoriteNamed(favorites, locationName)
    }
  }
}
