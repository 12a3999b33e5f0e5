/**
 * `WeatherRepository`: calls the weather and place services and turns what
 * they answer into a `Result`. A service is a function from its request to
 * its `Response`, so the repository itself is a pure function of the three
 * services.
 */
module WeatherRepository {
  import opened Wrappers
  import opened Kotlin
  import opened WeatherData
  import WeatherParse

  /**
   * What a Retrofit call ends in: it throws (no connection, a timeout, a body
   * that cannot be decoded), or it returns a status code and a body that is
   * null when the call failed.
   */
  datatype Response<B> =
    | Throws(message: Option<string>)
    | Resp(code: int, body: Option<B>)

  /** `Response.isSuccessful`: a status code in 200..299. */
  predicate IsSuccessful(code: int) {
    200 <= code < 300
  }

  /** The call succeeded with a non-null body. */
  predicate HasBody<B>(r: Response<B>) {
    r.Resp? && IsSuccessful(r.code) && r.body.Some?
  }

  /** `weatherApi.fetchWeatherForecast(longitude, latitude)`: longitude first. */
  type WeatherApi = (real, real) -> Response<SmhiResponse>
  /** `locationApi.searchPlaces(query)`. */
  type LocationApi = string -> Response<seq<SmhiLocationResponse>>
  /** `geocodingApi.searchLocation(query)`. */
  type GeocodingApi = string -> Response<GeocodingResponse>

  // ---- forecast ----

  /**
   * `fetchForecastForCoordinates`: a thrown exception is the failure, a
   * successful call with a body is parsed (a parse failure is caught and is
   * the failure), anything else fails with "API error: <code>".
   */
  function FetchForecastForCoordinates(weatherApi: WeatherApi, latitude: real, longitude: real, locationName: string): (r: Result<WeatherForecast, Exception>)
    ensures var resp := weatherApi(longitude, latitude);
      resp.Throws? ==> r == Failure(Transport(resp.message))
    ensures var resp := weatherApi(longitude, latitude);
      resp.Resp? && !HasBody(resp) ==> r == Failure(ApiError(resp.code))
    ensures var resp := weatherApi(longitude, latitude);
      HasBody(resp) ==> r == WeatherParse.ParseWeatherData(resp.body.value, locationName)
    ensures r.Success? ==>
      && HasBody(weatherApi(longitude, latitude))
      && r.value.location.name == locationName
      && |r.value.forecasts| == |weatherApi(longitude, latitude).body.value.timeSeries|
  {
    match weatherApi(longitude, latitude)
    case Throws(message) => Failure(Transport(message))
    case Resp(code, body) =>
      if IsSuccessful(code) && body.Some? then
        WeatherParse.ParseWeatherData(body.value, locationName)
      else
        Failure(ApiError(code))
  }

  /**
   * The forecast's location takes its coordinates from the service's answer,
   * not from the coordinates that were asked for.
   */
  lemma {:induction false} ForecastCoordinatesFromResponse(weatherApi: WeatherApi, latitude: real, longitude: real, locationName: string)
    requires FetchForecastForCoordinates(weatherApi, latitude, longitude, locationName).Success?
    ensures var r := FetchForecastForCoordinates(weatherApi, latitude, longitude, locationName);
      var coords := weatherApi(longitude, latitude).body.value.geometry.coordinates;
      (coords == [] ==> r.value.location.latitude == 0.0 && r.value.location.longitude == 0.0)
      && (coords != [] ==> r.value.location.latitude == coords[0][1] && r.value.location.longitude == coords[0][0])
  {
    var resp := weatherApi(longitude, latitude);
    assert HasBody(resp);
  }

  /** A failed call's message is "API error: " and the status code. */
  lemma {:induction false} ApiErrorMessage(weatherApi: WeatherApi, latitude: real, longitude: real, locationName: string)
    requires weatherApi(longitude, latitude).Resp? && !HasBody(weatherApi(longitude, latitude))
    ensures var r := FetchForecastForCoordinates(weatherApi, latitude, longitude, locationName);
      r.Failure? && Message(r.error) == Some("API error: " + IntToString(weatherApi(longitude, latitude).code))
  {
  }

  // ---- place search ----

  /**
   * The primary search's hits when it is usable: a successful call with a
   * body from which at least one location is parsed. Anything else, a thrown
   * exception included, falls through to the fallback.
   */
  function PrimaryHits(resp: Response<seq<SmhiLocationResponse>>): (hits: Option<seq<Location>>)
    ensures hits.Some? <==> HasBody(resp) && |WeatherParse.ParseLocations(resp.body.value)| > 0
    ensures hits.Some? ==> hits.value == WeatherParse.ParseLocations(resp.body.value)
  {
    if HasBody(resp) && |WeatherParse.ParseLocations(resp.body.value)| > 0 then
      Some(WeatherParse.ParseLocations(resp.body.value))
    else
      None
  }

  /** "<name>, <admin1>", or just the name when there is no admin1. */
  function FallbackName(g: GeocodingResult): (name: string)
    ensures g.admin1.None? ==> name == g.name
    ensures g.admin1.Some? ==> name == g.name + ", " + g.admin1.value
    ensures g.name <= name
  {
    g.name + (if g.admin1.Some? then ", " + g.admin1.value else "")
  }

  function FallbackLocation(g: GeocodingResult): (l: Location)
    ensures l.name == FallbackName(g) && l.latitude == g.latitude && l.longitude == g.longitude
  {
    Location(FallbackName(g), g.latitude, g.longitude)
  }

  /**
   * The fallback: each of its results, in order, as a location; "Inga platser
   * hittades" when the call fails or has no results list; the exception when
   * it throws. An empty results list is a success with no locations.
   */
  function FallbackResult(resp: Response<GeocodingResponse>): (r: Result<seq<Location>, Exception>)
    ensures resp.Throws? ==> r == Failure(Transport(resp.message))
    ensures resp.Resp? && !(HasBody(resp) && resp.body.value.results.Some?) ==> r == Failure(NoPlacesFound)
    ensures HasBody(resp) && resp.body.value.results.Some? ==>
      var results := resp.body.value.results.value;
      r.Success? && |r.value| == |results|
      && forall i :: 0 <= i < |results| ==> r.value[i] == FallbackLocation(results[i])
  {
    match resp
    case Throws(message) => Failure(Transport(message))
    case Resp(code, body) =>
      if IsSuccessful(code) && body.Some? && body.value.results.Some? then
        var results := body.value.results.value;
        Success(seq(|results|, i requires 0 <= i < |results| => FallbackLocation(results[i])))
      else
        Failure(NoPlacesFound)
  }

  /**
   * `searchLocationsByName`: the primary service's locations when it finds
   * any, otherwise the fallback's answer. The two are never merged.
   */
  function SearchLocationsByName(locationApi: LocationApi, geocodingApi: GeocodingApi, query: string): (r: Result<seq<Location>, Exception>)
    ensures PrimaryHits(locationApi(query)).Some? ==> r == Success(PrimaryHits(locationApi(query)).value)
    ensures PrimaryHits(locationApi(query)).None? ==> r == FallbackResult(geocodingApi(query))
  {
    match PrimaryHits(locationApi(query))
    case Some(locations) => Success(locations)
    case None => FallbackResult(geocodingApi(query))
  }

  /** When the primary service finds something, the fallback is not consulted. */
  lemma {:induction false} FallbackUnusedWhenPrimaryFinds(locationApi: LocationApi, g1: GeocodingApi, g2: GeocodingApi, query: string)
    requires HasBody(locationApi(query)) && |WeatherParse.ParseLocations(locationApi(query).body.value)| > 0
    ensures SearchLocationsByName(locationApi, g1, query) == SearchLocationsByName(locationApi, g2, query)
    ensures SearchLocationsByName(locationApi, g1, query) == Success(WeatherParse.ParseLocations(locationApi(query).body.value))
  {
  }

  /**
   * When the primary service finds nothing, whether it threw, failed or
   * answered without a usable hit makes no difference.
   */
  lemma {:induction false} PrimaryIgnoredWhenItFindsNothing(l1: LocationApi, l2: LocationApi, geocodingApi: GeocodingApi, query: string)
    requires PrimaryHits(l1(query)).None? && PrimaryHits(l2(query)).None?
    ensures SearchLocationsByName(l1, geocodingApi, query) == SearchLocationsByName(l2, geocodingApi, query)
  {
  }

  /**
   * A successful search is, as a whole, either the primary's distinctly
   * named hits or the fallback's results in order.
   */
  lemma {:induction false} SearchSuccessIsOneSource(locationApi: LocationApi, geocodingApi: GeocodingApi, query: string)
    requires SearchLocationsByName(locationApi, geocodingApi, query).Success?
    ensures var locations := SearchLocationsByName(locationApi, geocodingApi, query).value;
      var p, f := locationApi(query), geocodingApi(query);
      (HasBody(p) && locations == WeatherParse.ParseLocations(p.body.value) && |locations| > 0
        && forall i, j :: 0 <= i < j < |locations| ==> locations[i].name != locations[j].name)
      || (HasBody(f) && f.body.value.results.Some?
        && |locations| == |f.body.value.results.value|
        && forall i :: 0 <= i < |locations| ==> locations[i] == FallbackLocation(f.body.value.results.value[i]))
  {
    var p := locationApi(query);
    if PrimaryHits(p).None? {
      var f := geocodingApi(query);
      assert HasBody(f) && f.body.value.results.Some?;
    }
  }

  /**
   * The search fails exactly when neither service is usable; the failure is
   * the fallback's exception when it threw, and "Inga platser hittades"
   * otherwise.
   */
  lemma {:induction false} SearchFailure(locationApi: LocationApi, geocodingApi: GeocodingApi, query: string)
    ensures var r, f := SearchLocationsByName(locationApi, geocodingApi, query), geocodingApi(query);
      r.Failure? <==> PrimaryHits(locationApi(query)).None? && !(HasBody(f) && f.body.value.results.Some?)
    ensures var r, f := SearchLocationsByName(locationApi, geocodingApi, query), geocodingApi(query);
      r.Failure? ==>
        (f.Throws? ==> r.error == Transport(f.message))
        && (f.Resp? ==> r.error == NoPlacesFound && Message(r.error) == Some("Inga platser hittades"))
  {
    var f := geocodingApi(query);
    if PrimaryHits(locationApi(query)).None? && f.Resp? && !(HasBody(f) && f.body.value.results.Some?) {
      assert FallbackResult(f) == Failure(NoPlacesFound);
    }
  }

  /** Two hits `Stockholm` from the primary service come back as one. */
  lemma {:induction false} DuplicatePrimaryHitsCollapse(locationApi: LocationApi, geocodingApi: GeocodingApi, a: real, b: real, c: real, d: real)
    requires locationApi("Stockholm") == Resp(200, Some([
      SmhiLocationResponse("Stockholm", "locality", a, b),
      SmhiLocationResponse("Stockholm", "locality", c, d)]))
    ensures SearchLocationsByName(locationApi, geocodingApi, "Stockholm") == Success([Location("Stockholm", b, a)])
  {
    WeatherParse.DuplicateLocalityKeptOnce(a, b, c, d);
  }
}
