/**
 * `WeatherParser`: turns the weather service's time series into a
 * `WeatherForecast`, groups hourly entries into days, and filters the
 * place-search hits.
 */
module WeatherParse {
  import opened Wrappers
  import opened Kotlin
  import opened WeatherData
  import Lists

  // ---- parameters of one time step ----

  function ParamName(p: Parameter): string {
    p.name
  }

  /** Some parameter in `params` is called `name`. */
  predicate HasParam(params: seq<Parameter>, name: string) {
    Lists.Occurs(params, ParamName, name)
  }

  /** `values.firstOrNull()`. */
  function FirstOrNull(values: seq<real>): (r: Option<real>)
    ensures r.Some? <==> |values| > 0
    ensures r.Some? ==> r.value == values[0]
  {
    if |values| > 0 then Some(values[0]) else None
  }

  /**
   * `params.find { it.name == name }?.values?.firstOrNull()`: the first value
   * of the FIRST parameter with that name. A later parameter of the same name
   * is never consulted, even when the first has no values.
   */
  function FindParamValue(params: seq<Parameter>, name: string): (r: Option<real>)
    ensures !HasParam(params, name) ==> r == None
    ensures HasParam(params, name) ==>
      r == FirstOrNull(params[Lists.FirstIndex(params, ParamName, name)].values)
  {
    if params == [] then None
    else if params[0].name == name then FirstOrNull(params[0].values)
    else
      var rest := params[1..];
      assert HasParam(params, name) ==> HasParam(rest, name) by {
        if HasParam(params, name) {
          var n :| 0 <= n < |params| && ParamName(params[n]) == name;
          assert rest[n - 1] == params[n];
        }
      }
      assert !HasParam(params, name) ==> !HasParam(rest, name) by {
        assert forall n :: 0 <= n < |rest| ==> rest[n] == params[n + 1];
      }
      FindParamValue(rest, name)
  }

  /** The first parameter named `name` decides, however many follow it. */
  lemma {:induction false} FirstParameterDecides(params: seq<Parameter>, name: string, i: nat)
    requires i < |params| && params[i].name == name
    requires forall j :: 0 <= j < i ==> params[j].name != name
    ensures FindParamValue(params, name) == FirstOrNull(params[i].values)
  {
    assert HasParam(params, name) by {
      assert ParamName(params[i]) == name;
    }
    var k := Lists.FirstIndex(params, ParamName, name);
    assert !(k < i) && !(i < k) by {
      assert ParamName(params[k]) == name;
      assert forall j :: 0 <= j < k ==> ParamName(params[j]) != name;
    }
  }

  /** A first `t` without values hides a second `t` that has one. */
  lemma EmptyFirstParameterHidesLater(v: real)
    ensures FindParamValue(
      [Parameter("t", None, None, None, []), Parameter("t", None, None, None, [v])], "t") == None
  {
    var params := [Parameter("t", None, None, None, []), Parameter("t", None, None, None, [v])];
    FirstParameterDecides(params, "t", 0);
  }

  // ---- one hourly entry ----

  /**
   * `((oktas / 8.0) * 100.0).toInt()`: cloud cover in eighths of the sky as
   * a whole percentage, truncated.
   */
  function CloudPercent(oktas: real): (percent: int)
    ensures 0.0 <= oktas <= 8.0 ==> 0 <= percent <= 100
    ensures 0.0 <= oktas <= 8.0 ==> percent as real <= oktas * 12.5 < percent as real + 1.0
  {
    DoubleToInt((oktas / 8.0) * 100.0)
  }

  lemma CloudPercentExamples()
    ensures CloudPercent(0.0) == 0 && CloudPercent(4.0) == 50 && CloudPercent(8.0) == 100
    ensures CloudPercent(1.0) == 12 && CloudPercent(7.0) == 87
  {
  }

  /** More cloud never gives a smaller percentage. */
  lemma CloudPercentMonotonic(a: real, b: real)
    requires a <= b
    ensures CloudPercent(a) <= CloudPercent(b)
  {
    var x, y := (a / 8.0) * 100.0, (b / 8.0) * 100.0;
    assert x <= y;
    if IntMin as real < x && y < IntMax as real && x < 0.0 && 0.0 <= y {
      assert Truncate(x) <= 0 <= Truncate(y);
    }
  }

  /**
   * `extractHourlyData`: one time step as an hourly entry. A missing
   * temperature is 0.0, a missing weather symbol 1, missing cloud cover 0 %.
   */
  function ExtractHourlyData(series: TimeSeries): (h: HourlyForecast)
    ensures h.time == series.validTime
    ensures h.temperature == FindParamValue(series.parameters, "t").GetOr(0.0)
    ensures FindParamValue(series.parameters, "Wsymb2").None? ==> h.weatherSymbol == 1
    ensures FindParamValue(series.parameters, "Wsymb2").Some? ==>
      h.weatherSymbol == DoubleToInt(FindParamValue(series.parameters, "Wsymb2").value)
    ensures h.cloudCover == CloudPercent(FindParamValue(series.parameters, "tcc_mean").GetOr(0.0))
    ensures !HasParam(series.parameters, "t") ==> h.temperature == 0.0
    ensures !HasParam(series.parameters, "Wsymb2") ==> h.weatherSymbol == 1
    ensures !HasParam(series.parameters, "tcc_mean") ==> h.cloudCover == 0
    ensures (forall v :: FindParamValue(series.parameters, "tcc_mean") == Some(v) ==> 0.0 <= v <= 8.0) ==>
      0 <= h.cloudCover <= 100
  {
    var params := series.parameters;
    var cloudOktas := FindParamValue(params, "tcc_mean").GetOr(0.0);
    var cloudPercent := CloudPercent(cloudOktas);
    var symbol := FindParamValue(params, "Wsymb2");
    HourlyForecast(
      series.validTime,
      FindParamValue(params, "t").GetOr(0.0),
      if symbol.Some? then DoubleToInt(symbol.value) else 1,
      cloudPercent)
  }

  /** A parameter that is looked up under none of the three names changes nothing. */
  lemma {:induction false} OtherParametersIgnored(series: TimeSeries, p: Parameter)
    requires p.name != "t" && p.name != "Wsymb2" && p.name != "tcc_mean"
    ensures ExtractHourlyData(TimeSeries(series.validTime, [p] + series.parameters)) == ExtractHourlyData(series)
  {
    var params := series.parameters;
    OtherParameterSkipped(params, p, "t");
    OtherParameterSkipped(params, p, "Wsymb2");
    OtherParameterSkipped(params, p, "tcc_mean");
  }

  /** `find` passes over a parameter of another name. */
  lemma {:induction false} OtherParameterSkipped(params: seq<Parameter>, p: Parameter, name: string)
    requires p.name != name
    ensures FindParamValue([p] + params, name) == FindParamValue(params, name)
  {
    var all := [p] + params;
    assert all[0] == p && all[1..] == params;
  }

  // ---- the whole response ----

  /**
   * `parseWeatherData`. The location takes the given name and the first
   * coordinate pair `[longitude, latitude]`, or 0.0 for both when there is
   * none; `get(0)` and `get(1)` throw on a shorter first pair. Every time
   * step becomes one hourly entry, in order.
   */
  function ParseWeatherData(response: SmhiResponse, locationName: string): (r: Result<WeatherForecast, Exception>)
    ensures var coords := response.geometry.coordinates;
      r.Success? <==> |coords| == 0 || |coords[0]| >= 2
    ensures var coords := response.geometry.coordinates;
      r.Failure? ==> r.error == IndexOutOfBounds(|coords[0]|, |coords[0]|)
    ensures r.Success? ==> r.value.location.name == locationName
    ensures r.Success? && response.geometry.coordinates == [] ==>
      r.value.location.latitude == 0.0 && r.value.location.longitude == 0.0
    ensures r.Success? && response.geometry.coordinates != [] ==>
      r.value.location.longitude == response.geometry.coordinates[0][0]
      && r.value.location.latitude == response.geometry.coordinates[0][1]
    ensures r.Success? ==> |r.value.forecasts| == |response.timeSeries|
    ensures r.Success? ==> forall i :: 0 <= i < |response.timeSeries| ==>
      r.value.forecasts[i] == ExtractHourlyData(response.timeSeries[i])
      && r.value.forecasts[i].time == response.timeSeries[i].validTime
  {
    var coords := response.geometry.coordinates;
    if |coords| > 0 && |coords[0]| < 2 then
      // the first of `get(0)`, `get(1)` that is out of range throws
      Failure(IndexOutOfBounds(|coords[0]|, |coords[0]|))
    else
      var location := Location(
        locationName,
        if |coords| > 0 then coords[0][1] else 0.0,
        if |coords| > 0 then coords[0][0] else 0.0);
      var series := response.timeSeries;
      var forecasts := seq(|series|, i requires 0 <= i < |series| => ExtractHourlyData(series[i]));
      Success(WeatherForecast(location, forecasts))
  }

  // ---- grouping by day ----

  /** Every entry's time is long enough for `time.substring(0, 10)`. */
  predicate HasDates(forecasts: seq<HourlyForecast>) {
    forall i :: 0 <= i < |forecasts| ==> |forecasts[i].time| >= 10
  }

  /** `time.substring(0, 10)`: the "YYYY-MM-DD" part of the timestamp. */
  function DayOf(h: HourlyForecast): string
    requires |h.time| >= 10
  {
    h.time[..10]
  }

  /** The entries of `forecasts` on `date`, in input order. */
  function EntriesOn(forecasts: seq<HourlyForecast>, date: string): seq<HourlyForecast>
    requires HasDates(forecasts)
  {
    Lists.Where(forecasts, DayOf, date)
  }

  /** The first position in `forecasts` of an entry on `date`. */
  function FirstOn(forecasts: seq<HourlyForecast>, date: string): nat
    requires HasDates(forecasts) && Lists.Occurs(forecasts, DayOf, date)
  {
    Lists.FirstIndex(forecasts, DayOf, date)
  }

  /** `hourlyList.getOrNull(12) ?: hourlyList.first()`. */
  function Midday(hourly: seq<HourlyForecast>): HourlyForecast
    requires |hourly| > 0
  {
    if |hourly| >= 13 then hourly[12] else hourly[0]
  }

  const MaxDays: nat := 7

  /**
   * `groupForecastsByDay`: `groupBy` on the date, one day per group in order
   * of first appearance, then `take(7)`.
   */
  function GroupForecastsByDay(forecasts: seq<HourlyForecast>): (days: seq<DailyForecast>)
    requires HasDates(forecasts)
    ensures |days| <= MaxDays
    ensures forall i, j :: 0 <= i < j < |days| ==> days[i].date != days[j].date
    ensures forall i :: 0 <= i < |days| ==>
      Lists.Occurs(forecasts, DayOf, days[i].date)
      && days[i].hourlyForecasts == EntriesOn(forecasts, days[i].date)
      && |days[i].hourlyForecasts| > 0
      && days[i].weatherSymbol == Midday(days[i].hourlyForecasts).weatherSymbol
    ensures forall i, j :: 0 <= i < j < |days| ==>
      FirstOn(forecasts, days[i].date) < FirstOn(forecasts, days[j].date)
    ensures forall n :: 0 <= n < |forecasts| ==>
      (exists i :: 0 <= i < |days| && days[i].date == DayOf(forecasts[n]))
      || (|days| == MaxDays && forall i :: 0 <= i < |days| ==> FirstOn(forecasts, days[i].date) < n)
  {
    var groups := Lists.GroupBy(forecasts, DayOf);
    var all := seq(|groups|, i requires 0 <= i < |groups| =>
      DailyForecast(groups[i].0, Midday(groups[i].1).weatherSymbol, groups[i].1));
    var days := all[..if |all| < MaxDays then |all| else MaxDays];
    GroupForecastsByDayCovers(forecasts, groups, days);
    days
  }

  /** A date left out by the cap first appears after all seven kept dates. */
  lemma {:induction false} GroupForecastsByDayCovers(forecasts: seq<HourlyForecast>, groups: seq<(string, seq<HourlyForecast>)>, days: seq<DailyForecast>)
    requires HasDates(forecasts) && groups == Lists.GroupBy(forecasts, DayOf)
    requires |days| == if |groups| < MaxDays then |groups| else MaxDays
    requires forall i :: 0 <= i < |days| ==> days[i].date == groups[i].0
    ensures forall n :: 0 <= n < |forecasts| ==>
      (exists i :: 0 <= i < |days| && days[i].date == DayOf(forecasts[n]))
      || (|days| == MaxDays && forall i :: 0 <= i < |days| ==> FirstOn(forecasts, days[i].date) < n)
  {
    forall n | 0 <= n < |forecasts|
      ensures (exists i :: 0 <= i < |days| && days[i].date == DayOf(forecasts[n]))
        || (|days| == MaxDays && forall i :: 0 <= i < |days| ==> FirstOn(forecasts, days[i].date) < n)
    {
      DayKeptOrCapped(forecasts, groups, days, n);
    }
  }

  lemma {:induction false} DayKeptOrCapped(forecasts: seq<HourlyForecast>, groups: seq<(string, seq<HourlyForecast>)>, days: seq<DailyForecast>, n: nat)
    requires HasDates(forecasts) && groups == Lists.GroupBy(forecasts, DayOf)
    requires |days| == if |groups| < MaxDays then |groups| else MaxDays
    requires forall i :: 0 <= i < |days| ==> days[i].date == groups[i].0
    requires n < |forecasts|
    ensures (exists i :: 0 <= i < |days| && days[i].date == DayOf(forecasts[n]))
      || (|days| == MaxDays && forall i :: 0 <= i < |days| ==> FirstOn(forecasts, days[i].date) < n)
  {
    assert DayOf(forecasts[n]) in Lists.Keys(groups);
    var m :| 0 <= m < |groups| && Lists.Keys(groups)[m] == DayOf(forecasts[n]);
    if m < |days| {
      assert days[m].date == DayOf(forecasts[n]);
    } else {
      var k := Lists.FirstIndex(forecasts, DayOf, groups[m].0);
      assert k <= n;
      forall i | 0 <= i < |days| ensures FirstOn(forecasts, days[i].date) < n {
        assert Lists.FirstIndex(forecasts, DayOf, groups[i].0) < k;
      }
    }
  }

  /** With fewer than seven days in the input, every entry's day is a group. */
  lemma {:induction false} AllDaysKeptBelowCap(forecasts: seq<HourlyForecast>, n: nat)
    requires HasDates(forecasts) && n < |forecasts|
    requires |GroupForecastsByDay(forecasts)| < MaxDays
    ensures exists i :: (0 <= i < |GroupForecastsByDay(forecasts)|
      && GroupForecastsByDay(forecasts)[i].date == DayOf(forecasts[n]))
  {
  }

  // ---- place search hits ----

  /** The categories kept: `listOf("locality", "municipality", "populated place")`. */
  predicate IsPlace(hit: SmhiLocationResponse) {
    hit.category in ["locality", "municipality", "populated place"]
  }

  function ToLocation(hit: SmhiLocationResponse): Location {
    Location(hit.name, hit.lat, hit.lon)
  }

  function LocationName(l: Location): string {
    l.name
  }

  /** The locations made from hits of a kept category, as a set. */
  ghost function PlaceHits(results: seq<SmhiLocationResponse>): set<Location> {
    set h | h in results && IsPlace(h) :: ToLocation(h)
  }

  /** The hits of a kept category as locations, before `distinctBy`. */
  function PlaceLocations(results: seq<SmhiLocationResponse>): (places: seq<Location>)
    ensures |places| == |Lists.Filter(results, IsPlace)| <= |results|
    ensures forall i :: 0 <= i < |places| ==> places[i] == ToLocation(Lists.Filter(results, IsPlace)[i])
    ensures forall i :: 0 <= i < |places| ==> places[i] in PlaceHits(results)
    ensures forall h :: h in results && IsPlace(h) ==> ToLocation(h) in places
  {
    var kept := Lists.Filter(results, IsPlace);
    var places := seq(|kept|, i requires 0 <= i < |kept| => ToLocation(kept[i]));
    forall h | h in results && IsPlace(h) ensures ToLocation(h) in places {
      var m :| 0 <= m < |kept| && kept[m] == h;
      assert places[m] == ToLocation(h);
    }
    forall i | 0 <= i < |places| ensures places[i] in PlaceHits(results) {
      assert IsPlace(kept[i]) && kept[i] in results;
    }
    places
  }

  /**
   * `parseLocations`: hits of a kept category, as locations, keeping the
   * first of each name in the order the names first appear.
   */
  function ParseLocations(results: seq<SmhiLocationResponse>): (locations: seq<Location>)
    ensures |locations| <= |results|
    ensures forall i, j :: 0 <= i < j < |locations| ==> locations[i].name != locations[j].name
    ensures forall i :: 0 <= i < |locations| ==> locations[i] in PlaceHits(results)
    ensures forall h :: h in results && IsPlace(h) ==> Lists.Occurs(locations, LocationName, h.name)
  {
    var places := PlaceLocations(results);
    var locations := Lists.DistinctBy(places, LocationName);
    EveryPlaceNameKept(results, places, locations);
    locations
  }

  /** A hit's name when its category is kept, `None` for a hit that is filtered out. */
  function PlaceName(hit: SmhiLocationResponse): Option<string> {
    if IsPlace(hit) then Some(hit.name) else None
  }

  /** The hits become locations one at a time, in input order, one location per kept hit. */
  lemma {:induction false} PlaceLocationsCons(results: seq<SmhiLocationResponse>)
    requires |results| > 0
    ensures PlaceLocations(results) ==
      (if IsPlace(results[0]) then [ToLocation(results[0])] else []) + PlaceLocations(results[1..])
  {
    var kept, rest := Lists.Filter(results, IsPlace), Lists.Filter(results[1..], IsPlace);
    var head := if IsPlace(results[0]) then [results[0]] else [];
    assert kept == head + rest;
    var places, tail := PlaceLocations(results), PlaceLocations(results[1..]);
    var front := if IsPlace(results[0]) then [ToLocation(results[0])] else [];
    assert |places| == |front| + |tail|;
    forall i | 0 <= i < |places| ensures places[i] == (front + tail)[i] {
      assert places[i] == ToLocation(kept[i]);
      if i < |head| {
        assert kept[i] == results[0];
      } else {
        assert kept[i] == rest[i - |head|];
        assert tail[i - |head|] == ToLocation(rest[i - |head|]);
      }
    }
  }

  /**
   * A name is among the place locations exactly when some hit of a kept
   * category has it, and its first location there is made from the first
   * such hit in the input.
   */
  lemma {:induction false} FirstPlaceHit(results: seq<SmhiLocationResponse>, name: string)
    ensures Lists.Occurs(PlaceLocations(results), LocationName, name) <==> Lists.Occurs(results, PlaceName, Some(name))
    ensures Lists.Occurs(results, PlaceName, Some(name)) ==>
      PlaceLocations(results)[Lists.FirstIndex(PlaceLocations(results), LocationName, name)]
      == ToLocation(results[Lists.FirstIndex(results, PlaceName, Some(name))])
    decreases |results|
  {
    if results != [] {
      var places, tail := PlaceLocations(results), PlaceLocations(results[1..]);
      PlaceLocationsCons(results);
      FirstPlaceHit(results[1..], name);
      Lists.OccursCons(results, PlaceName, Some(name));
      if IsPlace(results[0]) {
        assert places[0] == ToLocation(results[0]) && places[1..] == tail;
        Lists.OccursCons(places, LocationName, name);
        if results[0].name != name && Lists.Occurs(tail, LocationName, name) {
          var k := Lists.FirstIndex(tail, LocationName, name);
          assert places[1 + k] == tail[k];
        }
      } else {
        assert places == tail;
      }
    }
  }

  /** Names come first among the place locations in the order their first kept hits come in the input. */
  lemma {:induction false} PlaceHitsInOrder(results: seq<SmhiLocationResponse>, a: string, b: string)
    requires Lists.Occurs(results, PlaceName, Some(a)) && Lists.Occurs(results, PlaceName, Some(b))
    ensures Lists.Occurs(PlaceLocations(results), LocationName, a) && Lists.Occurs(PlaceLocations(results), LocationName, b)
    ensures Lists.FirstIndex(PlaceLocations(results), LocationName, a) < Lists.FirstIndex(PlaceLocations(results), LocationName, b)
      <==> Lists.FirstIndex(results, PlaceName, Some(a)) < Lists.FirstIndex(results, PlaceName, Some(b))
    decreases |results|
  {
    FirstPlaceHit(results, a);
    FirstPlaceHit(results, b);
    var places, tail := PlaceLocations(results), PlaceLocations(results[1..]);
    PlaceLocationsCons(results);
    Lists.OccursCons(results, PlaceName, Some(a));
    Lists.OccursCons(results, PlaceName, Some(b));
    if IsPlace(results[0]) {
      assert places[0] == ToLocation(results[0]) && places[1..] == tail;
      Lists.OccursCons(places, LocationName, a);
      Lists.OccursCons(places, LocationName, b);
      if results[0].name != a && results[0].name != b {
        PlaceHitsInOrder(results[1..], a, b);
      }
    } else {
      assert places == tail;
      PlaceHitsInOrder(results[1..], a, b);
    }
  }

  /** Some hit of a kept category is named like `l`, and `l` is made from the first such hit. */
  predicate MadeFromFirstHit(results: seq<SmhiLocationResponse>, l: Location) {
    && Lists.Occurs(results, PlaceName, Some(l.name))
    && l == ToLocation(results[Lists.FirstIndex(results, PlaceName, Some(l.name))])
  }

  /** Of several hits with one name, the first kept hit in the input is the one returned. */
  lemma {:induction false} FirstHitOfEachName(results: seq<SmhiLocationResponse>)
    ensures var locations := ParseLocations(results);
      forall i :: 0 <= i < |locations| ==> MadeFromFirstHit(results, locations[i])
  {
    var places, locations := PlaceLocations(results), ParseLocations(results);
    assert locations == Lists.DistinctBy(places, LocationName);
    forall i | 0 <= i < |locations| ensures MadeFromFirstHit(results, locations[i]) {
      assert LocationName(locations[i]) == locations[i].name;
      FirstHitOfOneName(results, locations[i]);
    }
  }

  /** Both names have kept hits, and the first kept hit named `a` comes before the first named `b`. */
  predicate FirstHitBefore(results: seq<SmhiLocationResponse>, a: string, b: string) {
    && Lists.Occurs(results, PlaceName, Some(a))
    && Lists.Occurs(results, PlaceName, Some(b))
    && Lists.FirstIndex(results, PlaceName, Some(a)) < Lists.FirstIndex(results, PlaceName, Some(b))
  }

  /** The names are returned in the order their first kept hits come in the input. */
  lemma {:induction false} NamesInFirstHitOrder(results: seq<SmhiLocationResponse>)
    ensures var locations := ParseLocations(results);
      forall i, j :: 0 <= i < j < |locations| ==> FirstHitBefore(results, locations[i].name, locations[j].name)
  {
    var places, locations := PlaceLocations(results), ParseLocations(results);
    assert locations == Lists.DistinctBy(places, LocationName);
    forall i, j | 0 <= i < j < |locations|
      ensures FirstHitBefore(results, locations[i].name, locations[j].name)
    {
      var a, b := locations[i].name, locations[j].name;
      assert LocationName(locations[i]) == a && LocationName(locations[j]) == b;
      FirstHitsOfTwoNames(results, a, b);
    }
  }

  /** Two names that come first among the place locations in one order have their first kept hits in that order. */
  lemma {:induction false} FirstHitsOfTwoNames(results: seq<SmhiLocationResponse>, a: string, b: string)
    requires Lists.Occurs(PlaceLocations(results), LocationName, a)
    requires Lists.Occurs(PlaceLocations(results), LocationName, b)
    requires Lists.FirstIndex(PlaceLocations(results), LocationName, a) < Lists.FirstIndex(PlaceLocations(results), LocationName, b)
    ensures FirstHitBefore(results, a, b)
  {
    FirstPlaceHit(results, a);
    FirstPlaceHit(results, b);
    PlaceHitsInOrder(results, a, b);
  }

  /** The first location of a name among the place locations comes from the first kept hit with it. */
  lemma {:induction false} FirstHitOfOneName(results: seq<SmhiLocationResponse>, l: Location)
    requires Lists.Occurs(PlaceLocations(results), LocationName, l.name)
    requires l == PlaceLocations(results)[Lists.FirstIndex(PlaceLocations(results), LocationName, l.name)]
    ensures MadeFromFirstHit(results, l)
  {
    FirstPlaceHit(results, l.name);
  }

  lemma {:induction false} EveryPlaceNameKept(results: seq<SmhiLocationResponse>, places: seq<Location>, locations: seq<Location>)
    requires places == PlaceLocations(results) && locations == Lists.DistinctBy(places, LocationName)
    ensures forall h :: h in results && IsPlace(h) ==> Lists.Occurs(locations, LocationName, h.name)
  {
    forall h | h in results && IsPlace(h) ensures Lists.Occurs(locations, LocationName, h.name) {
      var m :| 0 <= m < |places| && places[m] == ToLocation(h);
      assert LocationName(places[m]) == h.name;
    }
  }

  /** Two hits for the same locality give one location. */
  lemma {:induction false} DuplicateLocalityKeptOnce(a: real, b: real, c: real, d: real)
    ensures var hits := [SmhiLocationResponse("Stockholm", "locality", a, b),
                         SmhiLocationResponse("Stockholm", "locality", c, d)];
      ParseLocations(hits) == [Location("Stockholm", b, a)]
  {
    var hits := [SmhiLocationResponse("Stockholm", "locality", a, b),
                 SmhiLocationResponse("Stockholm", "locality", c, d)];
    var r := ParseLocations(hits);
    assert IsPlace(hits[0]) && IsPlace(hits[1]);
    assert |r| >= 1;
    assert |r| == 1;
    assert r[0] == Location("Stockholm", b, a) by {
      var places := PlaceLocations(hits);
      assert places == [ToLocation(hits[0]), ToLocation(hits[1])];
      var k := Lists.FirstIndex(places, LocationName, r[0].name);
      assert k == 0;
    }
  }

  /** A hit of another category is dropped. */
  lemma {:induction false} OtherCategoryDropped(hit: SmhiLocationResponse)
    requires hit.category == "other"
    ensures ParseLocations([hit]) == []
  {
  }
}
