/**
 * `WeatherIconMapper`: the two lookup tables from an SMHI weather symbol
 * (`Wsymb2`) to an icon and to a Swedish description. Symbols 1..21 are
 * in the tables; every other integer falls to the default.
 */
module WeatherIconMapper {

  /** The Material icons the table uses. */
  datatype Icon = WbSunny | WbCloudy | Cloud | CloudQueue | Grain | Thunderstorm | AcUnit

  const UnknownDescription: string := "Okänt"

  /** The symbols the tables know. */
  predicate IsKnownSymbol(weatherSymbol: int) {
    1 <= weatherSymbol <= 21
  }

  /** `getWeatherIcon`. */
  function GetWeatherIcon(weatherSymbol: int): (icon: Icon)
    ensures !IsKnownSymbol(weatherSymbol) ==> icon == WbCloudy
    ensures icon == WbSunny <==> weatherSymbol == 1 || weatherSymbol == 2
    ensures icon == Cloud <==> weatherSymbol == 5 || weatherSymbol == 6
    ensures icon == CloudQueue <==> weatherSymbol == 7
    ensures icon == Grain <==> 8 <= weatherSymbol <= 10 || 19 <= weatherSymbol <= 21
    ensures icon == Thunderstorm <==> 11 <= weatherSymbol <= 14
    ensures icon == AcUnit <==> 15 <= weatherSymbol <= 18
    ensures icon == WbCloudy <==> weatherSymbol == 3 || weatherSymbol == 4 || !IsKnownSymbol(weatherSymbol)
  {
    match weatherSymbol
    case 1 => WbSunny
    case 2 => WbSunny
    case 3 => WbCloudy
    case 4 => WbCloudy
    case 5 => Cloud
    case 6 => Cloud
    case 7 => CloudQueue
    case 8 => Grain
    case 9 => Grain
    case 10 => Grain
    case 11 => Thunderstorm
    case 12 => Thunderstorm
    case 13 => Thunderstorm
    case 14 => Thunderstorm
    case 15 => AcUnit
    case 16 => AcUnit
    case 17 => AcUnit
    case 18 => AcUnit
    case 19 => Grain
    case 20 => Grain
    case 21 => Grain
    case _ => WbCloudy
  }

  /** `getWeatherDescription`: total, "Okänt" exactly off the table. */
  function GetWeatherDescription(weatherSymbol: int): (description: string)
    ensures description == UnknownDescription <==> !IsKnownSymbol(weatherSymbol)
    ensures |description| > 0
  {
    match weatherSymbol
    case 1 => "Klart"
    case 2 => "Nästan klart"
    case 3 => "Halvklart"
    case 4 => "Molnigt"
    case 5 => "Mulet"
    case 6 => "Mulet"
    case 7 => "Dimma"
    case 8 => "Lätt regn"
    case 9 => "Regn"
    case 10 => "Kraftigt regn"
    case 11 => "Åska"
    case 12 => "Åskväder"
    case 13 => "Åskväder"
    case 14 => "Åskväder"
    case 15 => "Snö"
    case 16 => "Snö"
    case 17 => "Snöfall"
    case 18 => "Snöfall"
    case 19 => "Snöblandat regn"
    case 20 => "Snöblandat regn"
    case 21 => "Snöblandat regn"
    case _ => UnknownDescription
  }

  /** An unknown symbol is drawn like symbols 3 and 4, but described as unknown. */
  lemma {:induction false} UnknownSymbolLooksCloudy(weatherSymbol: int)
    requires !IsKnownSymbol(weatherSymbol)
    ensures GetWeatherIcon(weatherSymbol) == GetWeatherIcon(3) == GetWeatherIcon(4)
    ensures GetWeatherDescription(weatherSymbol) != GetWeatherDescription(3)
    ensures GetWeatherDescription(weatherSymbol) != GetWeatherDescription(4)
  {
  }

  /** Rain (8..10) and sleet (19..21) are drawn with the same icon. */
  lemma {:induction false} PrecipitationIcons(s: int, t: int)
    requires (8 <= s <= 10 || 19 <= s <= 21) && (8 <= t <= 10 || 19 <= t <= 21)
    ensures GetWeatherIcon(s) == GetWeatherIcon(t) == Grain
  {
  }

  /** The described symbols that share a description: 5 and 6, 12..14, 15 and 16, 17 and 18, 19..21. */
  lemma {:induction false} SharedDescriptions(s: int, t: int)
    requires IsKnownSymbol(s) && IsKnownSymbol(t) && s != t
    ensures GetWeatherDescription(s) == GetWeatherDescription(t) <==>
      || (5 <= s <= 6 && 5 <= t <= 6)
      || (12 <= s <= 14 && 12 <= t <= 14)
      || (15 <= s <= 16 && 15 <= t <= 16)
      || (17 <= s <= 18 && 17 <= t <= 18)
      || (19 <= s <= 21 && 19 <= t <= 21)
  {
  }

  /**
   * The description refines the icon: two symbols with the same description
   * always get the same icon, while the icon alone does not tell 1 from 2.
   */
  lemma {:induction false} DescriptionDeterminesIcon(s: int, t: int)
    requires GetWeatherDescription(s) == GetWeatherDescription(t)
    ensures GetWeatherIcon(s) == GetWeatherIcon(t)
  {
    if IsKnownSymbol(s) && IsKnownSymbol(t) && s != t {
      SharedDescriptions(s, t);
    }
  }

  /** Symbols 1 and 2 share `WbSunny` but are described differently. */
  lemma {:induction false} SunnySymbolsDiffer()
    ensures GetWeatherIcon(1) == GetWeatherIcon(2) == WbSunny
    ensures GetWeatherDescription(1) == "Klart" && GetWeatherDescription(2) == "Nästan klart"
  {
  }
}
