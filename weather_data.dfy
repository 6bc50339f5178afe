/** The weather reading and the yr.no condition catalogue: which icon and
    which English phrase each weather-symbol code stands for.  */
module YrWeatherData {
  import opened Wrappers

  /** Marker for "no temperature read yet".  */
  const InvalidTemperature: string := "NaN"
  /** Marker for "no condition code read yet".  */
  const InvalidCondition: int := -1

  /** The drawable icons the extension can show.  */
  datatype Icon = Foggy | Cloudy | PartlyCloudy | Sunny | Raining | Snow | Clear

  /** A weather reading as the extension fills it in.  The two text fields and
      the location start out null.  */
  datatype WeatherData = WeatherData(
    temperature: string,
    conditionCode: int,
    todayForecastConditionCode: int,
    conditionText: Option<string>,
    forecastText: Option<string>,
    location: Option<string>)
  {
    /** The temperature field no longer holds the "not read" marker.  */
    predicate HasValidTemperature(): (valid: bool)
      ensures valid <==> temperature != InvalidTemperature
    {
      temperature != "NaN"
    }
  }

  /** A reading as freshly constructed: every field holds its "absent" marker.  */
  function NewWeatherData(): (d: WeatherData)
    ensures !d.HasValidTemperature()
    ensures d.temperature == InvalidTemperature
    ensures d.conditionCode == InvalidCondition && d.todayForecastConditionCode == InvalidCondition
    ensures ConditionIconId(d.conditionCode) == Clear && ConditionText(d.conditionCode) == "NaN"
    ensures ConditionIconId(d.todayForecastConditionCode) == Clear
    ensures d.conditionText.None? && d.forecastText.None? && d.location.None?
  {
    WeatherData(InvalidTemperature, InvalidCondition, InvalidCondition, None, None, None)
  }

  /** The icon for a condition code; codes the catalogue does not list get the
      clear icon.  */
  function ConditionIconId(conditionCode: int): (icon: Icon)
    ensures icon == Clear <==> !(1 <= conditionCode <= 23)
  {
    match conditionCode
    case 15 => Foggy
    case 2 => Cloudy       // light cloud
    case 4 => Cloudy       // cloud
    case 17 => Cloudy      // light cloud (winter darkness)
    case 3 => PartlyCloudy
    case 1 => Sunny
    case 16 => Sunny       // sun (winter darkness)
    case 5 => Raining      // light rain, sun
    case 6 => Raining      // light rain, thunder, sun
    case 9 => Raining      // light rain
    case 10 => Raining     // rain
    case 11 => Raining     // rain and thunder
    case 18 => Raining     // light rain, sun (winter darkness)
    case 22 => Raining     // light rain and thunder
    case 7 => Snow         // sleet, sun
    case 8 => Snow         // snow, sun
    case 12 => Snow        // sleet
    case 13 => Snow        // snow
    case 14 => Snow        // snow and thunder
    case 19 => Snow        // snow, sun (winter darkness)
    case 20 => Snow        // sleet, sun, thunder
    case 21 => Snow        // snow, sun, thunder
    case 23 => Snow        // sleet and thunder
    case _ => Clear
  }

  /** The English phrase for a condition code; "NaN" for codes the catalogue
      does not list.  */
  function ConditionText(conditionCode: int): (text: string)
    ensures text == "NaN" <==> !(1 <= conditionCode <= 23)
  {
    match conditionCode
    case 1 => "Sun"
    case 2 => "Light Cloud"
    case 3 => "Partly Cloudy"
    case 4 => "Cloudy"
    case 5 => "Light Rain/Sun"
    case 6 => "Light Rain/Thunder/Sun"
    case 7 => "Sleet and Sun"
    case 8 => "Snow and Sun"
    case 9 => "Light Rain"
    case 10 => "Rain"
    case 11 => "Rain and Thunder"
    case 12 => "Sleet"
    case 13 => "Snow"
    case 14 => "Snow and Thunder"
    case 15 => "Foggy"
    case 16 => "Sun"
    case 17 => "Light Cloud"
    case 18 => "Light Rain and Sun"
    case 19 => "Snow and Sun"
    case 20 => "Sleet/Sun/Thunder"
    case 21 => "Snow/Sun/Thunder"
    case 22 => "Light Rain and Thunder"
    case 23 => "Sleet and Thunder"
    case _ => "NaN"
  }

  /** The grouping of yr.no symbol codes by icon, as an independent table.  */
  predicate InGroup(conditionCode: int, icon: Icon) {
    match icon
    case Foggy => conditionCode == 15
    case Cloudy => conditionCode in {2, 4, 17}
    case PartlyCloudy => conditionCode == 3
    case Sunny => conditionCode in {1, 16}
    case Raining => conditionCode in {5, 6, 9, 10, 11, 18, 22}
    case Snow => conditionCode in {7, 8, 12, 13, 14, 19, 20, 21, 23}
    case Clear => conditionCode < 1 || conditionCode > 23
  }

  /** A code gets an icon exactly when it belongs to that icon's group; since
      the lookup is a function, every code lies in exactly one group.  */
  lemma IconMatchesGroup(conditionCode: int, icon: Icon)
    ensures ConditionIconId(conditionCode) == icon <==> InGroup(conditionCode, icon)
  {
  }

  lemma GroupsAreDisjoint(conditionCode: int, a: Icon, b: Icon)
    requires InGroup(conditionCode, a) && InGroup(conditionCode, b)
    ensures a == b
  {
    IconMatchesGroup(conditionCode, a);
    IconMatchesGroup(conditionCode, b);
  }

  /** The condition codes whose phrase is shared with another code.  */
  predicate SharesPhrase(a: int, b: int) {
    (a == 1 && b == 16) || (a == 16 && b == 1) ||
    (a == 2 && b == 17) || (a == 17 && b == 2) ||
    (a == 8 && b == 19) || (a == 19 && b == 8)
  }

  /** Two listed codes have the same phrase only when they are the same code or
      one of the pairs 1/16 ("Sun"), 2/17 ("Light Cloud") and 8/19
      ("Snow and Sun").  */
  lemma PhrasesDistinguishCodes(a: int, b: int)
    requires 1 <= a <= 23 && 1 <= b <= 23
    ensures ConditionText(a) == ConditionText(b) <==> a == b || SharesPhrase(a, b)
  {
  }
}
