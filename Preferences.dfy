/**
 * `PreferencesManager`: the last forecast and the favourites, kept as JSON
 * strings under two keys of the app's `SharedPreferences` store.
 */
module Preferences {
  import opened Wrappers
  import opened WeatherData
  import Lists

  /** What a Moshi adapter's `fromJson` ends in: it throws, returns null, or returns a value. */
  datatype Decoded<T> = Malformed | Null | Value(value: T)

  /** A JSON adapter, left opaque: `toJson` and `fromJson`. */
  datatype Codec<!T> = Codec(encode: T -> string, decode: string -> Decoded<T>)

  /** `fromJson(toJson(x))` gives `x` back: what the app relies on from Moshi. */
  ghost predicate RoundTrips<T(!new)>(codec: Codec<T>) {
    forall x :: codec.decode(codec.encode(x)) == Value(x)
  }

  const LastForecastKey: string := "last_forecast"
  const FavoritesKey: string := "favorites"

  // ---- the favourites list ----

  /** `favorites.any { it.name == name }`. */
  function HasFavoriteNamed(favorites: seq<FavoriteLocation>, name: string): (b: bool)
    ensures b <==> exists i :: 0 <= i < |favorites| && favorites[i].name == name
  {
    if favorites == [] then false
    else favorites[0].name == name || HasFavoriteNamed(favorites[1..], name)
  }

  /** No two favourites share a name. */
  ghost predicate UniqueNames(favorites: seq<FavoriteLocation>) {
    forall i, j :: 0 <= i < j < |favorites| ==> favorites[i].name != favorites[j].name
  }

  /** How many favourites are called `name`. */
  function CountNamed(favorites: seq<FavoriteLocation>, name: string): nat {
    if favorites == [] then 0
    else (if favorites[0].name == name then 1 else 0) + CountNamed(favorites[1..], name)
  }

  /** The list `addFavorite` writes back: unchanged when the name is taken, else `location` appended. */
  function WithFavorite(favorites: seq<FavoriteLocation>, location: FavoriteLocation): (r: seq<FavoriteLocation>)
    ensures HasFavoriteNamed(r, location.name)
    ensures HasFavoriteNamed(favorites, location.name) ==> r == favorites
    ensures !HasFavoriteNamed(favorites, location.name) ==>
      |r| == |favorites| + 1 && r[..|favorites|] == favorites && r[|favorites|] == location
    ensures UniqueNames(favorites) ==> UniqueNames(r)
  {
    if HasFavoriteNamed(favorites, location.name) then favorites
    else
      var r := favorites + [location];
      assert r[|favorites|].name == location.name;
      assert r[..|favorites|] == favorites;
      r
  }

  function NotNamed(name: string): FavoriteLocation -> bool {
    (f: FavoriteLocation) => f.name != name
  }

  /** The list `removeFavorite` writes back: `removeAll { it.name == name }`. */
  function WithoutFavorite(favorites: seq<FavoriteLocation>, name: string): (r: seq<FavoriteLocation>)
    ensures !HasFavoriteNamed(r, name)
    ensures forall f :: f in r <==> f in favorites && f.name != name
    ensures UniqueNames(favorites) ==> UniqueNames(r)
  {
    var r := Lists.Filter(favorites, NotNamed(name));
    assert UniqueNames(favorites) ==> UniqueNames(r) by {
      if UniqueNames(favorites) {
        RemoveKeepsUnique(favorites, name);
      }
    }
    r
  }

  lemma {:induction false} RemoveKeepsUnique(favorites: seq<FavoriteLocation>, name: string)
    requires UniqueNames(favorites)
    ensures UniqueNames(Lists.Filter(favorites, NotNamed(name)))
    decreases |favorites|
  {
    if favorites != [] {
      var rest := favorites[1..];
      RemoveKeepsUnique(rest, name);
      var fr := Lists.Filter(rest, NotNamed(name));
      if favorites[0].name != name {
        var r := [favorites[0]] + fr;
        assert Lists.Filter(favorites, NotNamed(name)) == r;
        forall j | 0 < j < |r| ensures r[0].name != r[j].name {
          assert r[j] in rest;
        }
      }
    }
  }

  /** Counting by name: none exactly when no favourite has it. */
  lemma {:induction false} CountNamedZero(favorites: seq<FavoriteLocation>, name: string)
    ensures CountNamed(favorites, name) == 0 <==> !HasFavoriteNamed(favorites, name)
    decreases |favorites|
  {
    if favorites != [] {
      CountNamedZero(favorites[1..], name);
    }
  }

  /** With unique names every name is counted at most once. */
  lemma {:induction false} UniqueNamesCountAtMostOne(favorites: seq<FavoriteLocation>, name: string)
    requires UniqueNames(favorites)
    ensures CountNamed(favorites, name) <= 1
    decreases |favorites|
  {
    if favorites != [] {
      var rest := favorites[1..];
      UniqueNamesCountAtMostOne(rest, name);
      if favorites[0].name == name {
        assert !HasFavoriteNamed(rest, name) by {
          forall i | 0 <= i < |rest| ensures rest[i].name != name {
            assert rest[i] == favorites[i + 1];
          }
        }
        CountNamedZero(rest, name);
      }
    }
  }

  lemma {:induction false} CountNamedSnoc(favorites: seq<FavoriteLocation>, f: FavoriteLocation, name: string)
    ensures CountNamed(favorites + [f], name) == CountNamed(favorites, name) + (if f.name == name then 1 else 0)
    decreases |favorites|
  {
    if favorites != [] {
      assert (favorites + [f])[1..] == favorites[1..] + [f];
      CountNamedSnoc(favorites[1..], f, name);
    }
  }

  /** Adding to a list with unique names leaves exactly one favourite with that name. */
  lemma {:induction false} AddedNameOccursOnce(favorites: seq<FavoriteLocation>, location: FavoriteLocation)
    requires UniqueNames(favorites)
    ensures CountNamed(WithFavorite(favorites, location), location.name) == 1
  {
    var r := WithFavorite(favorites, location);
    if HasFavoriteNamed(favorites, location.name) {
      UniqueNamesCountAtMostOne(favorites, location.name);
      CountNamedZero(favorites, location.name);
    } else {
      CountNamedZero(favorites, location.name);
      assert r == favorites + [location];
      CountNamedSnoc(favorites, location, location.name);
    }
  }

  /** Adding the same location twice is adding it once. */
  lemma {:induction false} AddTwiceIsAddOnce(favorites: seq<FavoriteLocation>, location: FavoriteLocation)
    ensures WithFavorite(WithFavorite(favorites, location), location) == WithFavorite(favorites, location)
  {
  }

  /** A second location with a taken name does not replace the stored coordinates. */
  lemma {:induction false} TakenNameKeepsCoordinates(favorites: seq<FavoriteLocation>, location: FavoriteLocation, i: nat)
    requires i < |favorites| && favorites[i].name == location.name
    ensures WithFavorite(favorites, location) == favorites
  {
  }

  /** Removal keeps the order of the others: it distributes over concatenation. */
  lemma {:induction false} RemoveKeepsOrder(a: seq<FavoriteLocation>, b: seq<FavoriteLocation>, name: string)
    ensures WithoutFavorite(a + b, name) == WithoutFavorite(a, name) + WithoutFavorite(b, name)
  {
    Lists.FilterConcat(a, b, NotNamed(name));
  }

  /** Removing a name nobody has changes nothing. */
  lemma {:induction false} RemoveAbsentName(favorites: seq<FavoriteLocation>, name: string)
    requires !HasFavoriteNamed(favorites, name)
    ensures WithoutFavorite(favorites, name) == favorites
  {
    Lists.FilterKeepsAll(favorites, NotNamed(name));
  }

  /** Removing after adding a new name gives the original list back. */
  lemma {:induction false} RemoveUndoesAdd(favorites: seq<FavoriteLocation>, location: FavoriteLocation)
    requires !HasFavoriteNamed(favorites, location.name)
    ensures WithoutFavorite(WithFavorite(favorites, location), location.name) == favorites
  {
    RemoveKeepsOrder(favorites, [location], location.name);
    RemoveAbsentName(favorites, location.name);
    assert Lists.Filter([location], NotNamed(location.name)) == [];
  }

  // ---- the store ----

  /** `PreferencesManager(context)`: the store `weather_prefs` and the two adapters. */
  class PreferencesManager {
    /** The `SharedPreferences` entries: key to JSON string. */
    var prefs: map<string, string>
    const forecastCodec: Codec<WeatherForecast>
    const favoritesCodec: Codec<seq<FavoriteLocation>>

    constructor(initial: map<string, string>, forecastCodec: Codec<WeatherForecast>, favoritesCodec: Codec<seq<FavoriteLocation>>)
      ensures prefs == initial
      ensures this.forecastCodec == forecastCodec && this.favoritesCodec == favoritesCodec
    {
      prefs := initial;
      this.forecastCodec := forecastCodec;
      this.favoritesCodec := favoritesCodec;
    }

    /**
     * `getLastForecast`: none when nothing is stored or the stored JSON does
     * not decode to a forecast.
     */
    function GetLastForecast(): (r: Option<WeatherForecast>)
      reads this
      ensures LastForecastKey !in prefs ==> r == None
      ensures LastForecastKey in prefs ==>
        (r.Some? <==> forecastCodec.decode(prefs[LastForecastKey]).Value?)
        && (r.Some? ==> r.value == forecastCodec.decode(prefs[LastForecastKey]).value)
    {
      if LastForecastKey !in prefs then None
      else match forecastCodec.decode(prefs[LastForecastKey])
        case Value(f) => Some(f)
        case _ => None
    }

    /**
     * `getFavorites`: the empty list when nothing is stored, the JSON is
     * malformed or it decodes to null.
     */
    function GetFavorites(): (r: seq<FavoriteLocation>)
      reads this
      ensures FavoritesKey !in prefs ==> r == []
      ensures FavoritesKey in prefs && !favoritesCodec.decode(prefs[FavoritesKey]).Value? ==> r == []
      ensures FavoritesKey in prefs && favoritesCodec.decode(prefs[FavoritesKey]).Value? ==>
        r == favoritesCodec.decode(prefs[FavoritesKey]).value
    {
      if FavoritesKey !in prefs then []
      else match favoritesCodec.decode(prefs[FavoritesKey])
        case Value(favorites) => favorites
        case _ => []
    }

    /** `saveLastForecast`: overwrites the one `last_forecast` entry. */
    method SaveLastForecast(forecast: WeatherForecast)
      modifies this
      ensures prefs == old(prefs)[LastForecastKey := forecastCodec.encode(forecast)]
      ensures RoundTrips(forecastCodec) ==> GetLastForecast() == Some(forecast)
      ensures GetFavorites() == old(GetFavorites())
    {
      var json := forecastCodec.encode(forecast);
      prefs := prefs[LastForecastKey := json];
    }

    /** `saveFavorites`: overwrites the one `favorites` entry. */
    method SaveFavorites(favorites: seq<FavoriteLocation>)
      modifies this
      ensures prefs == old(prefs)[FavoritesKey := favoritesCodec.encode(favorites)]
      ensures RoundTrips(favoritesCodec) ==> GetFavorites() == favorites
      ensures GetLastForecast() == old(GetLastForecast())
    {
      var json := favoritesCodec.encode(favorites);
      prefs := prefs[FavoritesKey := json];
    }

    /**
     * `addFavorite`: appends `location` and writes the list back, unless a
     * favourite already has its name, in which case nothing is written.
     */
    method AddFavorite(location: FavoriteLocation)
      modifies this
      ensures HasFavoriteNamed(old(GetFavorites()), location.name) ==> prefs == old(prefs)
      ensures !HasFavoriteNamed(old(GetFavorites()), location.name) ==>
        prefs == old(prefs)[FavoritesKey := favoritesCodec.encode(old(GetFavorites()) + [location])]
      ensures RoundTrips(favoritesCodec) ==> GetFavorites() == WithFavorite(old(GetFavorites()), location)
      ensures GetLastForecast() == old(GetLastForecast())
    {
      var current := GetFavorites();
      if !HasFavoriteNamed(current, location.name) {
        current := current + [location];
        SaveFavorites(current);
      }
    }

    /** `removeFavorite`: drops every favourite called `name` and always writes the list back. */
    method RemoveFavorite(name: string)
      modifies this
      ensures prefs == old(prefs)[FavoritesKey := favoritesCodec.encode(WithoutFavorite(old(GetFavorites()), name))]
      ensures RoundTrips(favoritesCodec) ==> GetFavorites() == WithoutFavorite(old(GetFavorites()), name)
      ensures GetLastForecast() == old(GetLastForecast())
    {
      var current := GetFavorites();
      current := Lists.Filter(current, NotNamed(name));
      SaveFavorites(current);
    }
  }
}
