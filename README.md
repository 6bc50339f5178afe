# Yr weather extension for DashClock: a verified model

This project models the core of the yr.no weather extension for the DashClock
Android widget. The extension takes the device's location and asks a
place-search service for the town and country. It then reads yr.no's
location-forecast feed with a streaming XML pull parser, to get the current
temperature and the weather-symbol code. Finally it builds the payload the
widget shows: a status string, an icon, an expanded title, an expanded body and
a click action.

Modules, leaf first:

- `Wrappers` holds `Option` (a Java reference that may be null), `Failure`
  (IOException, InvalidLocationException, NumberFormatException) and `Result`.
- `JavaText` models the Java conversions the code relies on: `Long.toString`,
  `Integer.parseInt`, plain decimals as `Double.valueOf` reads them (as exact
  reals), how Java turns a null reference into text (`"null"`), and
  `toUpperCase` for the unit letter.
- `YrWeatherData` models `YrWeatherData.java`. It holds the absent markers
  (`"NaN"`, `-1`), the reading record, and the two lookup tables from code to
  icon and from code to phrase.
- `PullParser` abstracts `XmlPullParser`. A document is the sequence of events
  the parser reports, and END_DOCUMENT is the end of that sequence. A
  `StartTag` event carries its attributes and what `nextText()` returns on
  it. `Malformed` marks the point where the parser throws.
- `WeatherFeed` models the event loop of `getWeatherDataForLocation`.
  `PlaceFeed` models the event loop of `getLocationInfo`.
- `Render` models `getTemperatureBasedOnSelectedWeatherUnit` and
  `renderExtensionData`. The string resources are uninterpreted functions.
- `YrExtension` models the staleness test and the fetch pipeline. Its class
  `Extension` holds the one-shot listener flag, the host's outstanding
  location requests and the last published payload.

The two loops are `while` loops. Each is proved equal to a recursive function
that processes one event at a time. Lemmas then relate that function to
independent definitions: "the last value offered", "some event makes the
parser throw", and "the same events read without the early exit".

Points where the code behaves in a way a reader might not expect:

- The place loop reads the whole document, and the last `locality1` and
  `country` elements win.
- Each `value` attribute of a `temperature` tag overwrites the temperature
  read so far. The loop stops at the first event after which the temperature
  and the code are both set.
- The code never reads a later-forecast code or text. They stay `-1` and null,
  so after a real fetch the rain override never fires (`FetchedReading`).
- A null location would be appended to the body as `"null"`, but a
  successful fetch always has a location line.
- The Fahrenheit path rounds, while the Celsius path passes the feed's text
  through unchanged.

## Model

| member | source | states |
|---|---|---|
| `JavaText.NatDigits` | src/com/ctrlplusz/dashclock/yr/YrExtension.java:197 | The digits Long.toString writes for a natural number read back as that number and have no leading zero |
| `JavaText.LongToString` | src/com/ctrlplusz/dashclock/yr/YrExtension.java:197 | Long.toString writes a non-empty text that starts with a minus sign iff the number is negative |
| `JavaText.ParseInt` | src/com/ctrlplusz/dashclock/yr/YrExtension.java:230 | Integer.parseInt accepts a text iff it is an optional sign, then one or more ASCII digits, and its value lies inside the 32-bit range (every text of at most 2^31 - 1 in magnitude is accepted); a negative result has a leading minus; the value itself is pinned by `ParseIntOfLongToString` and `ParseDecimalOfInt` |
| `JavaText.ParseDecimal` | src/com/ctrlplusz/dashclock/yr/YrExtension.java:196 | Double.valueOf reads a plain digit string as its value; whatever it accepts starts with a digit, or with a '+' or '-' sign followed by a digit (so "NaN", ".5" are refused here); a negative value has a leading minus |
| `JavaText.DigitRunStops` | src/com/ctrlplusz/dashclock/yr/YrExtension.java:196 | The integer part of a decimal ends at the first character that is not a digit |
| `JavaText.OneDecimalDigit` | src/com/ctrlplusz/dashclock/yr/YrExtension.java:196 | A text "n.t" with one fractional digit, as the feed sends it, reads as n + t/10 |
| `JavaText.NegativeOneDecimalDigit` | src/com/ctrlplusz/dashclock/yr/YrExtension.java:196 | A text "-n.t" reads as -(n + t/10) |
| `JavaText.JavaString` | src/com/ctrlplusz/dashclock/yr/YrExtension.java:176-189 | A null reference is written as "null", any other string as itself |
| `JavaText.ToUpperAscii` | src/com/ctrlplusz/dashclock/yr/YrExtension.java:188 | The upper-cased unit has the same length, each ASCII lower-case letter becomes its capital, every other character is kept, and no lower-case ASCII letter remains |
| `JavaText.ParseIntOfLongToString` | src/com/ctrlplusz/dashclock/yr/YrExtension.java:230 | Integer.parseInt reads back every 32-bit value Long.toString writes |
| `JavaText.ParseDecimalOfInt` | src/com/ctrlplusz/dashclock/yr/YrExtension.java:196 | Double.valueOf and Integer.parseInt agree on every integer text parseInt accepts |
| `JavaText.ParseDecimalOfLongToString` | src/com/ctrlplusz/dashclock/yr/YrExtension.java:196-197 | The Fahrenheit text Long.toString produces reads back as exactly the rounded number |
| `JavaText.DigitRunOfDigits` | src/com/ctrlplusz/dashclock/yr/YrExtension.java:196 | A text made only of digits is read whole as the integer part of a decimal |
| `YrWeatherData.NewWeatherData` | src/com/ctrlplusz/dashclock/yr/extension/YrWeatherData.java:25-40 | A fresh reading has the temperature "NaN" and both condition codes -1 (so no valid temperature, the clear icon and the "NaN" phrase), and its texts and location are null |
| `YrWeatherData.WeatherData.HasValidTemperature` | src/com/ctrlplusz/dashclock/yr/extension/YrWeatherData.java:39-41 | The temperature is valid iff it is not the "NaN" marker |
| `YrWeatherData.ConditionIconId` | src/com/ctrlplusz/dashclock/yr/extension/YrWeatherData.java:42-78 | The icon is the clear default exactly for codes outside 1..23, the invalid marker -1 included |
| `YrWeatherData.IconMatchesGroup` | src/com/ctrlplusz/dashclock/yr/extension/YrWeatherData.java:44-77 | A code gets an icon iff it is in that icon's group: 15 foggy; 2, 4, 17 cloudy; 3 partly cloudy; 1, 16 sunny; 5, 6, 9, 10, 11, 18, 22 raining; 7, 8, 12, 13, 14, 19, 20, 21, 23 snow; the rest clear |
| `YrWeatherData.GroupsAreDisjoint` | src/com/ctrlplusz/dashclock/yr/extension/YrWeatherData.java:44-77 | No code belongs to two icon groups |
| `YrWeatherData.ConditionText` | src/com/ctrlplusz/dashclock/yr/extension/YrWeatherData.java:80-109 | The phrase is "NaN" exactly for codes outside 1..23; no code is rejected |
| `YrWeatherData.PhrasesDistinguishCodes` | src/com/ctrlplusz/dashclock/yr/extension/YrWeatherData.java:82-105 | Two listed codes share a phrase iff they are equal or one of the pairs 1/16 "Sun", 2/17 "Light Cloud", 8/19 "Snow and Sun" |
| `WeatherFeed.LastValue` | src/com/ctrlplusz/dashclock/yr/YrExtension.java:220-224 | The temperature after a tag is either the one before it or the value of some `value` attribute of the tag; with no such attribute it is unchanged |
| `WeatherFeed.SymbolNumber` | src/com/ctrlplusz/dashclock/yr/YrExtension.java:227-233 | Reading a symbol's numbers can fail only with a number format error |
| `WeatherFeed.SymbolNumberReadsWrittenCode` | src/com/ctrlplusz/dashclock/yr/YrExtension.java:227-233 | A `number` attribute holding a 32-bit code as Long.toString writes it is read back as that code |
| `WeatherFeed.WeatherStep` | src/com/ctrlplusz/dashclock/yr/YrExtension.java:216-234 | One event changes at most the temperature and the current code; it fails only by a parser error or a number format error |
| `WeatherFeed.ScanWeather` | src/com/ctrlplusz/dashclock/yr/YrExtension.java:214-240 | The loop changes nothing but the temperature and the current code, and fails only by a parser error or a number format error |
| `WeatherFeed.ParseWeatherFeed` | src/com/ctrlplusz/dashclock/yr/YrExtension.java:214-247 | The loop, with its early break, gives what `ScanWeather` gives; afterwards the condition text is the catalogue phrase for the code |
| `WeatherFeed.LastValueIsLast` | src/com/ctrlplusz/dashclock/yr/YrExtension.java:219-225 | Within a `temperature` tag the last `value` attribute wins, and with none the temperature is unchanged |
| `WeatherFeed.SymbolNumberIsLast` | src/com/ctrlplusz/dashclock/yr/YrExtension.java:227-233 | Within a `symbol` tag the read fails iff some `number` does not parse; otherwise the last `number` wins |
| `WeatherFeed.ReadAllFails` | src/com/ctrlplusz/dashclock/yr/YrExtension.java:216-247 | Read to the end, the feed fails iff the parser throws somewhere or some symbol number does not parse |
| `WeatherFeed.ReadAllLastWins` | src/com/ctrlplusz/dashclock/yr/YrExtension.java:216-234 | Read to the end, the temperature is the last `value` of any `temperature` tag and the code the last `number` of any `symbol` tag; a field never offered keeps its marker |
| `WeatherFeed.ScanStopsAtFirstComplete` | src/com/ctrlplusz/dashclock/yr/YrExtension.java:236-238 | The loop stops at the first event after which both fields are set and returns the reading of the events up to it; later events, even malformed ones, are never read |
| `WeatherFeed.ScanReadsToEnd` | src/com/ctrlplusz/dashclock/yr/YrExtension.java:216-240 | If the reading is never complete, the loop consumes the document to END_DOCUMENT |
| `WeatherFeed.ScanKeepsUnseenFields` | src/com/ctrlplusz/dashclock/yr/YrExtension.java:214-240 | On a successful read, early exit or not, a field the document never offers keeps its marker |
| `WeatherFeed.ScanFailsOnlyOn` | src/com/ctrlplusz/dashclock/yr/YrExtension.java:216-240 | The loop, early exit included, fails only if some event makes the parser throw or some `symbol` number does not parse |
| `WeatherFeed.NoSymbolNoError` | src/com/ctrlplusz/dashclock/yr/YrExtension.java:216-240 | A document without `symbol` numbers on which the parser never throws is read without an error, so unseen fields keep their markers rather than fail |
| `PlaceFeed.PlaceStep` | src/com/ctrlplusz/dashclock/yr/YrExtension.java:271-279 | One event fails iff the parser throws on it (malformed, or a town or country element without plain text), always as an IOException; a `locality1` tag sets the town to its text, a `country` tag the country, and every other event leaves both unchanged |
| `PlaceFeed.ScanPlace` | src/com/ctrlplusz/dashclock/yr/YrExtension.java:268-282 | The place loop fails only with an IOException |
| `PlaceFeed.LocationInfoFor` | src/com/ctrlplusz/dashclock/yr/YrExtension.java:284-291 | A successful lookup has a non-null, non-empty town; failures are IOException or InvalidLocationException |
| `PlaceFeed.GetLocationInfo` | src/com/ctrlplusz/dashclock/yr/YrExtension.java:257-296 | The place loop gives what `LocationInfoFor` gives; an unreachable service is an IOException; a success has a non-empty town |
| `PlaceFeed.ScanPlaceFails` | src/com/ctrlplusz/dashclock/yr/YrExtension.java:270-291 | The whole document is read: the lookup fails with an IOException iff some event anywhere makes the parser throw |
| `PlaceFeed.ScanPlaceKeepsUnseen` | src/com/ctrlplusz/dashclock/yr/YrExtension.java:270-282 | A town or country whose tag never appears stays as it was |
| `PlaceFeed.ScanPlaceLastWins` | src/com/ctrlplusz/dashclock/yr/YrExtension.java:272-278 | The town and the country end as the text of the last `locality1` or `country` element |
| `PlaceFeed.NoTownIsInvalidLocation` | src/com/ctrlplusz/dashclock/yr/YrExtension.java:284-288 | A parsable document with no `locality1` element gives InvalidLocationException, not an IOException |
| `PlaceFeed.TownFromLastLocality` | src/com/ctrlplusz/dashclock/yr/YrExtension.java:284-288 | With a parsable document, InvalidLocationException is thrown iff the last `locality1` text is empty; otherwise that text is the town |
| `Render.Fahrenheit` | src/com/ctrlplusz/dashclock/yr/YrExtension.java:196-197 | The result is the integer nearest to c * 9 / 5 + 32, with halves rounded up |
| `Render.TemperatureForUnit` | src/com/ctrlplusz/dashclock/yr/YrExtension.java:194-201 | Units other than "f" pass the text through; with "f" the result exists iff the text parses, and it is Long.toString of the rounded Fahrenheit value and reads back as that number |
| `Render.FahrenheitOfWholeDegrees` | src/com/ctrlplusz/dashclock/yr/YrExtension.java:194-201 | Any whole Celsius number converts to Long.toString of its rounded Fahrenheit value |
| `Render.IntegerTemperatureConverts` | src/com/ctrlplusz/dashclock/yr/YrExtension.java:194-201 | Any text Integer.parseInt accepts, signs included, converts in Fahrenheit mode to the rounded Fahrenheit value of that integer |
| `Render.FreezingPoint` | src/com/ctrlplusz/dashclock/yr/YrExtension.java:194-201 | "0" in Fahrenheit mode is shown as "32" |
| `Render.BoilingPoint` | src/com/ctrlplusz/dashclock/yr/YrExtension.java:194-201 | "100" in Fahrenheit mode is shown as "212" |
| `Render.BodyTemperature` | src/com/ctrlplusz/dashclock/yr/YrExtension.java:194-201 | "37" in Fahrenheit mode (98.6) is shown as "99" |
| `Render.MildDay` | src/com/ctrlplusz/dashclock/yr/YrExtension.java:194-201 | "13.5" in Fahrenheit mode (56.3) is shown as "56" |
| `Render.HalfDegreeRoundsUp` | src/com/ctrlplusz/dashclock/yr/YrExtension.java:194-201 | "-17.5" in Fahrenheit mode (0.5) is rounded up and shown as "1" |
| `Render.CelsiusPassesThrough` | src/com/ctrlplusz/dashclock/yr/YrExtension.java:194-201 | "13.5" in another unit is shown unchanged, unrounded |
| `Render.RenderExtensionData` | src/com/ctrlplusz/dashclock/yr/YrExtension.java:163-192 | Status is the placeholder without a valid temperature, else the converted temperature; the title gets status plus the upper-cased unit and the condition text; the icon is forced to raining iff the later code is a rain code; the body is the location, preceded by the later-forecast line and a newline when the override fires; the payload is visible and carries the click action; it fails only where the Fahrenheit conversion cannot read the temperature |
| `YrExtension.IsStale` | src/com/ctrlplusz/dashclock/yr/YrExtension.java:105-107 | A location is stale iff it is missing or at least 10 * 60 * 10^9 ns old; a present location younger than that is fresh |
| `YrExtension.StaleStaysStale` | src/com/ctrlplusz/dashclock/yr/YrExtension.java:105-107 | Staleness is monotone in time: a location stale now is stale at every later time |
| `YrExtension.LocationLine` | src/com/ctrlplusz/dashclock/yr/YrExtension.java:206 | The location line is the town, then ", ", then the country (or "null" when the country is missing) |
| `YrExtension.WeatherDataFor` | src/com/ctrlplusz/dashclock/yr/YrExtension.java:203-251 | A failed place lookup is the fetch's failure; the fetch ends with InvalidLocationException iff the place lookup does; after a successful lookup an unreachable weather service is an IOException, and otherwise the fetch succeeds iff the weather loop, started from a fresh reading with the location line, succeeds, failing with the loop's failure; a success carries a location |
| `YrExtension.GetWeatherDataForLocation` | src/com/ctrlplusz/dashclock/yr/YrExtension.java:203-251 | The pipeline gives what `WeatherDataFor` gives: place lookup, location line, weather loop, condition text |
| `YrExtension.PlaceFailureComesFirst` | src/com/ctrlplusz/dashclock/yr/YrExtension.java:204-208 | A failed place lookup ends the fetch with its failure, whatever the weather feed holds |
| `YrExtension.FetchedReading` | src/com/ctrlplusz/dashclock/yr/YrExtension.java:203-244 | After a successful fetch the location is "Town, Country", the condition text matches the code, the later-forecast code is -1 and its text null, so the rain override cannot fire |
| `YrExtension.FetchedReadingFromFeed` | src/com/ctrlplusz/dashclock/yr/YrExtension.java:204-240 | The fetched temperature and code are what the weather loop stops with, starting from a reading that is not complete |
| `YrExtension.Extension.constructor` | src/com/ctrlplusz/dashclock/yr/YrExtension.java:61-64 | The units start as "f", the click action null, the listener flag off, with no request outstanding and nothing published |
| `YrExtension.Extension.DisableOneTimeLocationListener` | src/com/ctrlplusz/dashclock/yr/YrExtension.java:118-124 | Afterwards the flag is off and no location request is outstanding |
| `YrExtension.Extension.GetWeatherAndTryPublishUpdate` | src/com/ctrlplusz/dashclock/yr/YrExtension.java:152-161 | A failed fetch ends with its failure; after a successful fetch the cycle fails (with NumberFormat) iff the temperature is valid but cannot be converted; otherwise it publishes a visible payload carrying the click action, whose status is the placeholder without a valid temperature and else the converted temperature, whose title is status plus the upper-cased unit and the condition text, whose icon is the current condition's icon and whose body is exactly the location line; a failed cycle leaves the published payload unchanged |
| `YrExtension.Extension.OnUpdateData` | src/com/ctrlplusz/dashclock/yr/YrExtension.java:85-116 | Reads the units preference and the click action (the default web search when no shortcut is chosen); does nothing more without a network or a provider; arms exactly one request iff the location is stale; otherwise runs the cycle with the same outcome and publishing as `GetWeatherAndTryPublishUpdate`; at most one request is ever outstanding |
| `YrExtension.Extension.OnLocationChanged` | src/com/ctrlplusz/dashclock/yr/YrExtension.java:126-131 | Runs the cycle on the delivered fix, with the same outcome and publishing as `GetWeatherAndTryPublishUpdate`, then leaves the flag off with no request outstanding |
| `YrExtension.Extension.OnDestroy` | src/com/ctrlplusz/dashclock/yr/YrExtension.java:146-150 | Leaves the flag off with no request outstanding and the published payload untouched |

## Left out

- Network I/O is not modelled: creating the connection, building the query URLs (`buildWeatherQueryUrl`, `buildPlaceSearchUrl`) and closing streams. Each feed is a parameter, either unreachable (an IOException) or a document.
- XML tokenisation is not modelled. A document is the event sequence a pull parser would report, and a parser error is a `Malformed` event at the point where it is thrown.
- `Render.TemperatureForUnit`: reads only plain decimals (a sign, digits, and an optional fraction). It treats the other forms `Double.valueOf` accepts as unreadable: a missing integer or fraction part (`.5` and `5.`, which Java reads as 0.5 and 5.0), exponents, hexadecimal, `NaN` and `Infinity` with or without a sign, type suffixes and surrounding blanks.
- `Render.Fahrenheit`: uses exact reals, not IEEE-754 doubles, and does not model how `Math.round` saturates at the ends of the `long` range.
- `JavaText.ParseInt`: accepts only ASCII digits. `Integer.parseInt` also accepts other Unicode decimal digits.
- `JavaText.ToUpperAscii`: upper-cases only ASCII letters. `toUpperCase(Locale.US)` also maps non-ASCII letters.
- A NumberFormatException is uncaught in the source and would end the process. Here it is the `NumberFormat` outcome and leaves the published payload as it was.
- Android services are host glue and become parameters: the connectivity check (`connected`), provider selection (`provider`), and the preferences (`unitsPreference`). `AppChooserPreference.getIntentValue` is replaced by the shortcut it decodes (`shortcut`), absent when the preference is unset or unreadable, which selects the default web search. `publishUpdate` becomes the `published` field, and string formatting becomes the uninterpreted `Resources`.
- The unit and click-action statics are modelled as fields of the single extension object.
- Location listener callbacks are modelled only through the flag and the host's pending-request count. `OnLocationChanged` assumes the location manager calls back only while a request is outstanding. The empty `onStatusChanged`, `onProviderEnabled` and `onProviderDisabled` callbacks and their timing are not modelled.
- `YrExtension.IsStale`: subtracts unbounded integers. The source subtracts `long` values, which cannot overflow for real elapsed-time stamps.
- Logging is not modelled. Neither is the factory's static initialisation failure, which would leave the parser factory null.
- `YrWeatherData.WeatherData.HasValidTemperature`: the temperature is never null here. In the source a null temperature would count as valid, but the code never produces one.
