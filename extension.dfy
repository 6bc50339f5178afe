/** The DashClock extension itself: when to use the last known location and
    when to ask for a new one, the one-shot location listener, and the update
    cycle that fetches the place and the weather and publishes the payload.  */
module YrExtension {
  import opened Wrappers
  import opened JavaText
  import opened PullParser
  import opened YrWeatherData
  import opened WeatherFeed
  import opened PlaceFeed
  import opened Render

  /** Ten minutes, in nanoseconds.  */
  const StaleLocationNanos: int := 10 * 60000000000

  /** A last known location, reduced to the time it was taken
      (getElapsedRealtimeNanos); the coordinates only select the feeds, which
      are given to the update cycle directly.  */
  datatype LocationFix = LocationFix(elapsedRealtimeNanos: int)

  /** The last known location is missing or at least ten minutes old; a
      location that is not stale was taken less than ten minutes ago.  */
  predicate IsStale(lastLocation: Option<LocationFix>, nowNanos: int): (stale: bool)
    ensures lastLocation.None? ==> stale
    ensures !stale ==> nowNanos - lastLocation.value.elapsedRealtimeNanos < 10 * 60 * 1_000_000_000
    ensures lastLocation.Some? && nowNanos - lastLocation.value.elapsedRealtimeNanos < 10 * 60 * 1_000_000_000 ==> !stale
  {
    lastLocation.None? || nowNanos - lastLocation.value.elapsedRealtimeNanos >= StaleLocationNanos
  }

  /** Once stale, a location stays stale as time goes on.  */
  lemma StaleStaysStale(lastLocation: Option<LocationFix>, nowNanos: int, laterNanos: int)
    requires IsStale(lastLocation, nowNanos) && nowNanos <= laterNanos
    ensures IsStale(lastLocation, laterNanos)
  {
  }

  /** The expanded-body location line, built from the place lookup.  */
  function LocationLine(li: LocationInfo): (line: string)
    requires li.town.Some?
    ensures var n := |li.town.value|;
            && |line| >= n + 2 && line[..n] == li.town.value && line[n..n + 2] == ", "
            && line[n + 2..] == (if li.country.Some? then li.country.value else "null")
  {
    li.town.value + ", " + JavaString(li.country)
  }

  function PlaceLookup(placeFeed: Feed): Result<LocationInfo> {
    if placeFeed.Unreachable? then Err(IOError) else LocationInfoFor(placeFeed.events)
  }

  /** getWeatherDataForLocation: the place lookup first, then the weather
      feed read into a fresh reading that already carries the location.  */
  function WeatherDataFor(placeFeed: Feed, weatherFeed: Feed): (r: Result<WeatherData>)
    ensures PlaceLookup(placeFeed).Err? ==> r == Err(PlaceLookup(placeFeed).failure)
    ensures r == Err(InvalidLocation) <==> PlaceLookup(placeFeed) == Err(InvalidLocation)
    ensures r.Ok? ==> r.value.location.Some?
    ensures PlaceLookup(placeFeed).Ok? && weatherFeed.Unreachable? ==> r == Err(IOError)
    ensures PlaceLookup(placeFeed).Ok? && weatherFeed.Document? ==>
              var start := NewWeatherData().(location := Some(LocationLine(PlaceLookup(placeFeed).value)));
              && (r.Ok? <==> ScanWeather(weatherFeed.events, start).Ok?)
              && (ScanWeather(weatherFeed.events, start).Err? ==> r == Err(ScanWeather(weatherFeed.events, start).failure))
  {
    match PlaceLookup(placeFeed)
    case Err(f) => Err(f)
    case Ok(li) =>
      var data := NewWeatherData().(location := Some(LocationLine(li)));
      if weatherFeed.Unreachable? then Err(IOError)
      else
        match ScanWeather(weatherFeed.events, data)
        case Err(f) => Err(f)
        case Ok(d) => Ok(d.(conditionText := Some(ConditionText(d.conditionCode))))
  }

  method GetWeatherDataForLocation(placeFeed: Feed, weatherFeed: Feed) returns (r: Result<WeatherData>)
    ensures r == WeatherDataFor(placeFeed, weatherFeed)
  {
    var data := NewWeatherData();
    var li := GetLocationInfo(placeFeed);
    if li.Err? {
      return Err(li.failure);
    }
    data := data.(location := Some(LocationLine(li.value)));
    if weatherFeed.Unreachable? {
      return Err(IOError);
    }
    r := ParseWeatherFeed(weatherFeed.events, data);
  }

  /** A failed place lookup ends the cycle before the weather feed is asked
      for: the outcome is the same whatever that feed would have said.  */
  lemma PlaceFailureComesFirst(placeFeed: Feed, weatherFeed: Feed, otherWeatherFeed: Feed)
    requires PlaceLookup(placeFeed).Err?
    ensures WeatherDataFor(placeFeed, weatherFeed) == Err(PlaceLookup(placeFeed).failure)
    ensures WeatherDataFor(placeFeed, weatherFeed) == WeatherDataFor(placeFeed, otherWeatherFeed)
  {
  }

  /** What a successful fetch holds: the location is "Town, Country", the
      condition text matches the condition code, and the later-forecast fields
      keep their markers, so the rain override can never fire.  */
  lemma FetchedReading(placeFeed: Feed, weatherFeed: Feed)
    requires WeatherDataFor(placeFeed, weatherFeed).Ok?
    ensures PlaceLookup(placeFeed).Ok? && weatherFeed.Document?
    ensures var d := WeatherDataFor(placeFeed, weatherFeed).value;
            && d.location == Some(LocationLine(PlaceLookup(placeFeed).value))
            && d.conditionText == Some(ConditionText(d.conditionCode))
            && d.todayForecastConditionCode == InvalidCondition
            && d.forecastText.None?
            && !RainExpected(d)
  {
  }

  /** The fetched reading's temperature and code are those the weather loop
      stops with, read from a reading that starts with both markers.  */
  lemma FetchedReadingFromFeed(placeFeed: Feed, weatherFeed: Feed)
    requires WeatherDataFor(placeFeed, weatherFeed).Ok?
    ensures weatherFeed.Document? && PlaceLookup(placeFeed).Ok?
    ensures var start := NewWeatherData().(location := Some(LocationLine(PlaceLookup(placeFeed).value)));
            && !Complete(start)
            && ScanWeather(weatherFeed.events, start).Ok?
            && WeatherDataFor(placeFeed, weatherFeed).value.temperature == ScanWeather(weatherFeed.events, start).value.temperature
            && WeatherDataFor(placeFeed, weatherFeed).value.conditionCode == ScanWeather(weatherFeed.events, start).value.conditionCode
  {
  }

  /** What one update cycle must end with: the fetch's failure, or else the
      payload rendered from the fetched reading (or NumberFormat where the
      Fahrenheit conversion cannot read its temperature).  */
  predicate CycleOutcome(placeFeed: Feed, weatherFeed: Feed, units: string, intent: Option<Intent>,
                         res: Resources, outcome: Result<ExtensionData>)
  {
    match WeatherDataFor(placeFeed, weatherFeed)
    case Err(f) => outcome == Err(f)
    case Ok(d) =>
      && (outcome.Err? <==> d.HasValidTemperature() && TemperatureForUnit(units, d.temperature).None?)
      && (outcome.Err? ==> outcome.failure == NumberFormat)
      && (outcome.Ok? && !d.HasValidTemperature() ==> outcome.value.status == res.statusNone)
      && (outcome.Ok? && d.HasValidTemperature() ==>
            outcome.value.status == res.temperatureTemplate(TemperatureForUnit(units, d.temperature).value))
      && (outcome.Ok? ==>
            && outcome.value.visible
            && outcome.value.clickIntent == intent
            && outcome.value.icon == ConditionIconId(d.conditionCode)
            && outcome.value.expandedBody == d.location.value
            && outcome.value.expandedTitle ==
                 res.expandedTitleTemplate(outcome.value.status + ToUpperAscii(units), ConditionText(d.conditionCode)))
  }

  /** How an update request ended.  */
  datatype UpdateAction =
    | NoNetwork                               // no connected network: nothing done
    | NoProvider                              // no location provider matches the criteria
    | RequestedLocation                       // a one-shot location request was armed
    | Updated(outcome: Result<ExtensionData>) // the cycle ran on the last known location

  class Extension {
    /** The unit preference (a static field in the source, "f" by default).  */
    var weatherUnits: string
    /** The click action (a static field in the source, null until the first update).  */
    var weatherIntent: Option<Intent>
    var oneTimeLocationListenerActive: bool
    /** Host state: single-update requests the location manager holds for the
        listener and has not yet delivered.  */
    var pendingLocationRequests: nat
    /** The last payload handed to publishUpdate.  */
    var published: Option<ExtensionData>

    /** At most one request is ever outstanding, and only while the flag says so.  */
    ghost predicate Valid()
      reads this
    {
      pendingLocationRequests <= 1 &&
      (pendingLocationRequests == 1 ==> oneTimeLocationListenerActive)
    }

    constructor ()
      ensures Valid()
      ensures weatherUnits == "f" && weatherIntent.None?
      ensures !oneTimeLocationListenerActive && pendingLocationRequests == 0 && published.None?
    {
      weatherUnits := "f";
      weatherIntent := None;
      oneTimeLocationListenerActive := false;
      pendingLocationRequests := 0;
      published := None;
    }

    /** Withdraw the outstanding request, if the flag says there is one.  */
    method DisableOneTimeLocationListener()
      requires Valid()
      modifies this`oneTimeLocationListenerActive, this`pendingLocationRequests
      ensures Valid()
      ensures !oneTimeLocationListenerActive && pendingLocationRequests == 0
    {
      if oneTimeLocationListenerActive {
        pendingLocationRequests := 0;   // removeUpdates
        oneTimeLocationListenerActive := false;
      }
    }

    /** Fetch and render; publish only on success.  A failed cycle leaves the
        published payload as it was.  */
    method GetWeatherAndTryPublishUpdate(placeFeed: Feed, weatherFeed: Feed, res: Resources)
      returns (outcome: Result<ExtensionData>)
      modifies this`published
      ensures CycleOutcome(placeFeed, weatherFeed, weatherUnits, weatherIntent, res, outcome)
      ensures published == (if outcome.Ok? then Some(outcome.value) else old(published))
    {
      var data := GetWeatherDataForLocation(placeFeed, weatherFeed);
      if data.Err? {
        return Err(data.failure);
      }
      FetchedReading(placeFeed, weatherFeed);
      outcome := RenderExtensionData(data.value, weatherUnits, weatherIntent, res);
      if outcome.Ok? {
        published := Some(outcome.value);
      }
    }

    /** onUpdateData: read the preferences, give up without a network or a
        location provider, then either run the cycle on a recent last known
        location or arm a single new location request.  */
    method OnUpdateData(unitsPreference: Option<string>, shortcut: Option<Intent>, connected: bool,
                        provider: Option<string>, lastLocation: Option<LocationFix>, nowNanos: int,
                        placeFeed: Feed, weatherFeed: Feed, res: Resources)
      returns (action: UpdateAction)
      requires Valid()
      modifies this
      ensures Valid()
      ensures weatherUnits == (if unitsPreference.Some? then unitsPreference.value else old(weatherUnits))
      ensures weatherIntent == Some(if shortcut.Some? then shortcut.value else DefaultWeatherIntent)
      ensures action == NoNetwork <==> !connected
      ensures action == NoProvider <==> connected && (provider.None? || provider.value == "")
      ensures action == RequestedLocation <==>
                connected && provider.Some? && provider.value != "" && IsStale(lastLocation, nowNanos)
      ensures !action.RequestedLocation? ==>
                oneTimeLocationListenerActive == old(oneTimeLocationListenerActive) &&
                pendingLocationRequests == old(pendingLocationRequests)
      ensures action.RequestedLocation? ==> oneTimeLocationListenerActive && pendingLocationRequests == 1
      ensures !action.Updated? ==> published == old(published)
      ensures action.Updated? ==> CycleOutcome(placeFeed, weatherFeed, weatherUnits, weatherIntent, res, action.outcome)
      ensures action.Updated? ==>
                published == (if action.outcome.Ok? then Some(action.outcome.value) else old(published))
    {
      if unitsPreference.Some? {
        weatherUnits := unitsPreference.value;
      }
      weatherIntent := Some(if shortcut.Some? then shortcut.value else DefaultWeatherIntent);
      if !connected {
        return NoNetwork;
      }
      if provider.None? || provider.value == "" {
        return NoProvider;
      }
      if IsStale(lastLocation, nowNanos) {
        DisableOneTimeLocationListener();
        oneTimeLocationListenerActive := true;
        pendingLocationRequests := pendingLocationRequests + 1;   // requestSingleUpdate
        return RequestedLocation;
      }
      var outcome := GetWeatherAndTryPublishUpdate(placeFeed, weatherFeed, res);
      return Updated(outcome);
    }

    /** The listener's callback: the location manager delivers the requested
        fix, which uses up the request; the cycle runs; the listener is
        disabled.  */
    method OnLocationChanged(placeFeed: Feed, weatherFeed: Feed, res: Resources)
      returns (outcome: Result<ExtensionData>)
      requires Valid() && pendingLocationRequests == 1
      modifies this
      ensures Valid()
      ensures !oneTimeLocationListenerActive && pendingLocationRequests == 0
      ensures weatherUnits == old(weatherUnits) && weatherIntent == old(weatherIntent)
      ensures CycleOutcome(placeFeed, weatherFeed, weatherUnits, weatherIntent, res, outcome)
      ensures published == (if outcome.Ok? then Some(outcome.value) else old(published))
    {
      pendingLocationRequests := 0;
      outcome := GetWeatherAndTryPublishUpdate(placeFeed, weatherFeed, res);
      DisableOneTimeLocationListener();
    }

    method OnDestroy()
      requires Valid()
      modifies this
      ensures Valid()
      ensures !oneTimeLocationListenerActive && pendingLocationRequests == 0
      ensures published == old(published) && weatherUnits == old(weatherUnits) && weatherIntent == old(weatherIntent)
    {
      DisableOneTimeLocationListener();
    }
  }
}
