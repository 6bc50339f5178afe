/** Turning a weather reading into the payload DashClock shows: status,
    icon, expanded title and body, and click action.  */
module Render {
  import opened Wrappers
  import opened JavaText
  import opened YrWeatherData

  /** An Android intent, reduced to its action and data URI.  */
  datatype Intent = Intent(action: string, uri: string)

  /** The click action used when the user chose no shortcut: a web search for "weather".  */
  const DefaultWeatherIntent: Intent := Intent("android.intent.action.VIEW", "https://www.google.com/search?q=weather")

  /** The string resources the payload is formatted with, left uninterpreted:
      temperature_template, status_none, later_forecast_template and
      weather_expanded_title_template.  */
  datatype Resources = Resources(
    temperatureTemplate: string -> string,
    statusNone: string,
    laterForecastTemplate: string -> string,
    expandedTitleTemplate: (string, string) -> string)

  /** The payload handed to publishUpdate.  */
  datatype ExtensionData = ExtensionData(
    visible: bool,
    status: string,
    clickIntent: Option<Intent>,
    expandedTitle: string,
    icon: Icon,
    expandedBody: string)

  /** Math.round(c * 9 / 5 + 32) over exact reals: the nearest integer, with
      halves rounded up.  */
  function Fahrenheit(celsius: real): (f: int)
    ensures (f as real) - 0.5 <= celsius * 9.0 / 5.0 + 32.0 < (f as real) + 0.5
  {
    (celsius * 9.0 / 5.0 + 32.0 + 0.5).Floor
  }

  /** getTemperatureBasedOnSelectedWeatherUnit: with the "f" unit the feed's
      Celsius text is converted and rounded to a whole number of degrees
      Fahrenheit; any other unit passes the text through unchanged.  None
      where Double.valueOf would throw.  */
  function TemperatureForUnit(units: string, temperature: string): (r: Option<string>)
    ensures units != "f" ==> r == Some(temperature)
    ensures units == "f" ==> (r.Some? <==> ParseDecimal(temperature).Some?)
    ensures units == "f" && r.Some? ==>
              r.value == LongToString(Fahrenheit(ParseDecimal(temperature).value))
    ensures units == "f" && r.Some? ==>
              ParseDecimal(r.value) == Some(Fahrenheit(ParseDecimal(temperature).value) as real)
  {
    if units == "f" then
      match ParseDecimal(temperature)
      case None => None
      case Some(c) =>
        ParseDecimalOfLongToString(Fahrenheit(c));
        Some(LongToString(Fahrenheit(c)))
    else Some(temperature)
  }

  /** A whole number of degrees Celsius, as Long.toString writes it, converts
      to the rounded Fahrenheit value.  */
  lemma FahrenheitOfWholeDegrees(n: int)
    ensures TemperatureForUnit("f", LongToString(n)) == Some(LongToString(Fahrenheit(n as real)))
  {
    ParseDecimalOfLongToString(n);
  }

  /** Any temperature text Integer.parseInt accepts, signs included, converts
      to the rounded Fahrenheit value of that integer.  */
  lemma IntegerTemperatureConverts(temperature: string, n: int)
    requires ParseInt(temperature) == Some(n)
    ensures TemperatureForUnit("f", temperature) == Some(LongToString(Fahrenheit(n as real)))
  {
    ParseDecimalOfInt(temperature, n);
  }

  lemma FreezingPoint()
    ensures TemperatureForUnit("f", "0") == Some("32")
  {
    assert LongToString(0) == "0";
    FahrenheitOfWholeDegrees(0);
    assert Fahrenheit(0 as real) == 32;
    assert NatDigits(32) == NatDigits(3) + [DigitChar(2)];
    assert LongToString(32) == "32";
  }

  lemma BoilingPoint()
    ensures TemperatureForUnit("f", "100") == Some("212")
  {
    assert NatDigits(10) == NatDigits(1) + [DigitChar(0)];
    assert NatDigits(100) == NatDigits(10) + [DigitChar(0)];
    assert LongToString(100) == "100";
    FahrenheitOfWholeDegrees(100);
    assert Fahrenheit(100 as real) == 212;
    assert NatDigits(21) == NatDigits(2) + [DigitChar(1)];
    assert NatDigits(212) == NatDigits(21) + [DigitChar(2)];
    assert LongToString(212) == "212";
  }

  /** 37 degrees Celsius is 98.6 Fahrenheit, shown as 99.  */
  lemma BodyTemperature()
    ensures TemperatureForUnit("f", "37") == Some("99")
  {
    assert NatDigits(37) == NatDigits(3) + [DigitChar(7)];
    assert LongToString(37) == "37";
    FahrenheitOfWholeDegrees(37);
    assert Fahrenheit(37 as real) == 99;
    assert NatDigits(99) == NatDigits(9) + [DigitChar(9)];
    assert LongToString(99) == "99";
  }

  /** 13.5 degrees Celsius is 56.3 Fahrenheit, shown as 56.  */
  lemma MildDay()
    ensures TemperatureForUnit("f", "13.5") == Some("56")
  {
    assert NatDigits(13) == NatDigits(1) + [DigitChar(3)];
    assert "13.5" == NatDigits(13) + "." + [DigitChar(5)];
    OneDecimalDigit(13, 5);
    assert Fahrenheit(13.5) == 56;
    assert NatDigits(56) == NatDigits(5) + [DigitChar(6)];
    assert LongToString(56) == "56";
  }

  /** -17.5 degrees Celsius is 0.5 Fahrenheit: the half rounds up, to 1.  */
  lemma HalfDegreeRoundsUp()
    ensures TemperatureForUnit("f", "-17.5") == Some("1")
  {
    assert NatDigits(17) == NatDigits(1) + [DigitChar(7)];
    assert "-17.5" == "-" + NatDigits(17) + "." + [DigitChar(5)];
    NegativeOneDecimalDigit(17, 5);
    assert Fahrenheit(-17.5) == 1;
    assert LongToString(1) == "1";
  }

  /** Any unit other than "f" shows the feed's text as it is, fraction and all.  */
  lemma CelsiusPassesThrough()
    ensures TemperatureForUnit("c", "13.5") == Some("13.5")
  {
  }

  /** The later forecast for today calls for rain.  */
  predicate RainExpected(d: WeatherData) {
    ConditionIconId(d.todayForecastConditionCode) == Raining
  }

  /** renderExtensionData: the status (the formatted temperature, or the
      status_none placeholder when there is none), the icon with the
      rain-later override, the expanded body built up in a StringBuilder, and
      the title.  Fails only where the Fahrenheit conversion cannot read the
      temperature.  */
  method RenderExtensionData(data: WeatherData, units: string, intent: Option<Intent>, res: Resources)
    returns (r: Result<ExtensionData>)
    ensures r.Err? <==> data.HasValidTemperature() && TemperatureForUnit(units, data.temperature).None?
    ensures r.Err? ==> r.failure == NumberFormat
    ensures r.Ok? ==> r.value.visible && r.value.clickIntent == intent
    ensures r.Ok? && !data.HasValidTemperature() ==> r.value.status == res.statusNone
    ensures r.Ok? && data.HasValidTemperature() ==>
              r.value.status == res.temperatureTemplate(TemperatureForUnit(units, data.temperature).value)
    ensures r.Ok? ==>
              r.value.expandedTitle == res.expandedTitleTemplate(r.value.status + ToUpperAscii(units), JavaString(data.conditionText))
    ensures r.Ok? && RainExpected(data) ==> r.value.icon == Raining
    ensures r.Ok? && !RainExpected(data) ==> r.value.icon == ConditionIconId(data.conditionCode)
    ensures r.Ok? && !RainExpected(data) ==> r.value.expandedBody == JavaString(data.location)
    ensures r.Ok? && RainExpected(data) ==>
              var later := res.laterForecastTemplate(JavaString(data.forecastText));
              r.value.expandedBody == later + (if later == "" then "" else "\n") + JavaString(data.location)
  {
    var temperature: string;
    if data.HasValidTemperature() {
      var converted := TemperatureForUnit(units, data.temperature);
      if converted.None? {
        return Err(NumberFormat);
      }
      temperature := res.temperatureTemplate(converted.value);
    } else {
      temperature := res.statusNone;
    }
    var expandedBody: string := "";

    var conditionIconId := ConditionIconId(data.conditionCode);
    if ConditionIconId(data.todayForecastConditionCode) == Raining {
      // Show rain if it will rain today.
      conditionIconId := Raining;
      expandedBody := expandedBody + res.laterForecastTemplate(JavaString(data.forecastText));
    }

    if |expandedBody| > 0 {
      expandedBody := expandedBody + "\n";
    }
    expandedBody := expandedBody + JavaString(data.location);

    var title := res.expandedTitleTemplate(temperature + ToUpperAscii(units), JavaString(data.conditionText));
    r := Ok(ExtensionData(true, temperature, intent, title, conditionIconId, expandedBody));
  }
}
