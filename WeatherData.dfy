/**
 * The application's records: the domain model (`WeatherData.kt`), the
 * weather service's response (`SmhiResponse.kt`) and the fallback geocoding
 * service's response (`WeatherApiService.kt`). A Kotlin `Double` is a `real`,
 * an `Int` an `int`, a nullable field an `Option`.
 */
module WeatherData {
  import opened Wrappers

  // ---- domain model ----

  datatype Location = Location(name: string, latitude: real, longitude: real)

  datatype HourlyForecast = HourlyForecast(
    time: string,        // ISO-8601 timestamp, e.g. "2024-05-01T12:00:00Z"
    temperature: real,   // degrees Celsius
    weatherSymbol: int,  // the service's weather symbol, 1..21
    cloudCover: int      // percent
  )

  datatype DailyForecast = DailyForecast(
    date: string,        // "YYYY-MM-DD"
    weatherSymbol: int,
    hourlyForecasts: seq<HourlyForecast>
  )

  datatype WeatherForecast = WeatherForecast(location: Location, forecasts: seq<HourlyForecast>)

  datatype FavoriteLocation = FavoriteLocation(name: string, latitude: real, longitude: real)

  // ---- weather service response ----

  datatype SmhiResponse = SmhiResponse(
    approvedTime: string,
    referenceTime: string,
    geometry: Geometry,
    timeSeries: seq<TimeSeries>
  )

  /** `coordinates` is a list of `[longitude, latitude]` pairs. */
  datatype Geometry = Geometry(geometryType: string, coordinates: seq<seq<real>>)

  datatype TimeSeries = TimeSeries(validTime: string, parameters: seq<Parameter>)

  datatype Parameter = Parameter(
    name: string,
    levelType: Option<string>,
    level: Option<int>,
    unit: Option<string>,
    values: seq<real>
  )

  /** One hit of the weather service's place search. */
  datatype SmhiLocationResponse = SmhiLocationResponse(name: string, category: string, lon: real, lat: real)

  // ---- fallback geocoding response ----

  datatype GeocodingResponse = GeocodingResponse(results: Option<seq<GeocodingResult>>)

  datatype GeocodingResult = GeocodingResult(
    name: string,
    latitude: real,
    longitude: real,
    country: Option<string>,
    admin1: Option<string>
  )
}
