/** Reading the current temperature and condition code out of the yr.no
    location-forecast document, one pull-parser event at a time.  */
module WeatherFeed {
  import opened Wrappers
  import opened JavaText
  import opened PullParser
  import opened YrWeatherData

  /** The attributes of one tag, read in order: each attribute called `name`
      overwrites the running value.  */
  function LastValue(attrs: seq<Attribute>, name: string, current: string): (v: string)
    ensures v == current || exists i :: 0 <= i < |attrs| && attrs[i].name == name && attrs[i].value == v
    ensures (forall i :: 0 <= i < |attrs| ==> attrs[i].name != name) ==> v == current
    decreases |attrs|
  {
    if attrs == [] then current
    else
      var v := LastValue(attrs[1..], name, if attrs[0].name == name then attrs[0].value else current);
      assert v != current && v != attrs[0].value ==> exists i :: 1 <= i < |attrs| && attrs[i].name == name && attrs[i].value == v by {
        if v != current && v != attrs[0].value {
          var j :| 0 <= j < |attrs[1..]| && attrs[1..][j].name == name && attrs[1..][j].value == v;
          assert attrs[j + 1] == attrs[1..][j];
        }
      }
      v
  }

  /** The `number` attributes of a `symbol` tag, read in order: each is parsed
      with Integer.parseInt and overwrites the running code; the first one
      that does not parse ends the read with NumberFormat.  */
  function SymbolNumber(attrs: seq<Attribute>, current: int): (r: Result<int>)
    ensures r.Err? ==> r.failure == NumberFormat
    decreases |attrs|
  {
    if attrs == [] then Ok(current)
    else if attrs[0].name == "number" then
      match ParseInt(attrs[0].value)
      case None => Err(NumberFormat)
      case Some(n) => SymbolNumber(attrs[1..], n)
    else SymbolNumber(attrs[1..], current)
  }

  /** A `number` attribute holding a 32-bit code as Long.toString writes it
      is read back as that code.  */
  lemma SymbolNumberReadsWrittenCode(n: int, current: int)
    requires IntMin <= n <= IntMax
    ensures SymbolNumber([Attribute("number", LongToString(n))], current) == Ok(n)
  {
    ParseIntOfLongToString(n);
  }

  /** e differs from d at most in the temperature and the current condition code.  */
  predicate SameOtherFields(d: WeatherData, e: WeatherData) {
    e == d.(temperature := e.temperature, conditionCode := e.conditionCode)
  }

  /** What one iteration of the loop does with the event it is looking at.  */
  function WeatherStep(e: Event, d: WeatherData): (r: Result<WeatherData>)
    ensures r.Ok? ==> SameOtherFields(d, r.value)
    ensures r.Err? ==> r.failure == IOError || r.failure == NumberFormat
  {
    match e
    case Malformed => Err(IOError)
    case OtherEvent => Ok(d)
    case StartTag(name, attrs, _) =>
      var d1 := if name == "temperature" then d.(temperature := LastValue(attrs, "value", d.temperature)) else d;
      if name == "symbol" then
        match SymbolNumber(attrs, d1.conditionCode)
        case Err(f) => Err(f)
        case Ok(c) => Ok(d1.(conditionCode := c))
      else Ok(d1)
  }

  /** The loop's exit test: both fields have left their markers.  */
  predicate Complete(d: WeatherData) {
    d.temperature != "NaN" && d.conditionCode != -1
  }

  /** The loop: process each event, and stop as soon as the reading is complete
      or the document ends.  */
  function ScanWeather(events: seq<Event>, d: WeatherData): (r: Result<WeatherData>)
    ensures r.Ok? ==> SameOtherFields(d, r.value)
    ensures r.Err? ==> r.failure == IOError || r.failure == NumberFormat
    decreases |events|
  {
    if events == [] then Ok(d)
    else
      match WeatherStep(events[0], d)
      case Err(f) => Err(f)
      case Ok(d1) => if Complete(d1) then Ok(d1) else ScanWeather(events[1..], d1)
  }

  /** Reference: the same events processed without the early exit.  */
  function ReadAll(events: seq<Event>, d: WeatherData): Result<WeatherData>
    decreases |events|
  {
    if events == [] then Ok(d)
    else
      match WeatherStep(events[0], d)
      case Err(f) => Err(f)
      case Ok(d1) => ReadAll(events[1..], d1)
  }

  /** The loop of getWeatherDataForLocation: consume events until END_DOCUMENT
      or until both fields are set, then look up the condition text.  */
  method ParseWeatherFeed(events: seq<Event>, init: WeatherData) returns (r: Result<WeatherData>)
    ensures r.Err? <==> ScanWeather(events, init).Err?
    ensures r.Err? ==> r == ScanWeather(events, init)
    ensures r.Ok? ==> var d := ScanWeather(events, init).value;
                      r.value == d.(conditionText := Some(ConditionText(d.conditionCode)))
  {
    var data := init;
    var i := 0;
    while i < |events|
      invariant 0 <= i <= |events|
      invariant ScanWeather(events[i..], data) == ScanWeather(events, init)
    {
      ghost var before := data;
      assert events[i..][0] == events[i] && events[i..][1..] == events[i + 1..];
      match events[i] {
      case Malformed =>
        return Err(IOError);
      case OtherEvent =>
      case StartTag(name, attrs, _) =>
        if name == "temperature" {
          var j := 0;
          while j < |attrs|
            invariant 0 <= j <= |attrs|
            invariant data == before.(temperature := data.temperature)
            invariant LastValue(attrs[j..], "value", data.temperature) == LastValue(attrs, "value", before.temperature)
          {
            assert attrs[j..][0] == attrs[j] && attrs[j..][1..] == attrs[j + 1..];
            if attrs[j].name == "value" {
              data := data.(temperature := attrs[j].value);
            }
            j := j + 1;
          }
        }
        ghost var middle := data;
        if name == "symbol" {
          var j := 0;
          while j < |attrs|
            invariant 0 <= j <= |attrs|
            invariant data == middle.(conditionCode := data.conditionCode)
            invariant SymbolNumber(attrs[j..], data.conditionCode) == SymbolNumber(attrs, middle.conditionCode)
          {
            assert attrs[j..][0] == attrs[j] && attrs[j..][1..] == attrs[j + 1..];
            if attrs[j].name == "number" {
              var n := ParseInt(attrs[j].value);
              if n.None? {
                return Err(NumberFormat);
              }
              data := data.(conditionCode := n.value);
            }
            j := j + 1;
          }
        }
      }
      assert WeatherStep(events[i], before) == Ok(data);
      if data.temperature != "NaN" && data.conditionCode != -1 {
        assert ScanWeather(events, init) == Ok(data);
        break;
      }
      i := i + 1;
    }
    data := data.(conditionText := Some(ConditionText(data.conditionCode)));
    r := Ok(data);
  }

  // ----- Reference definitions: every value the document offers, in order -----

  /** The values of the attributes called `name`, in document order.  */
  function ValuesNamed(attrs: seq<Attribute>, name: string): seq<string>
    decreases |attrs|
  {
    if attrs == [] then []
    else (if attrs[0].name == name then [attrs[0].value] else []) + ValuesNamed(attrs[1..], name)
  }

  /** The `value` attributes of the event, if it is a `temperature` start tag.  */
  function TagTemperatures(e: Event): seq<string> {
    if e.StartTag? && e.name == "temperature" then ValuesNamed(e.attributes, "value") else []
  }

  /** The `number` attributes of the event, if it is a `symbol` start tag.  */
  function TagSymbolNumbers(e: Event): seq<string> {
    if e.StartTag? && e.name == "symbol" then ValuesNamed(e.attributes, "number") else []
  }

  function TemperatureValues(events: seq<Event>): seq<string>
    decreases |events|
  {
    if events == [] then [] else TagTemperatures(events[0]) + TemperatureValues(events[1..])
  }

  function SymbolNumbers(events: seq<Event>): seq<string>
    decreases |events|
  {
    if events == [] then [] else TagSymbolNumbers(events[0]) + SymbolNumbers(events[1..])
  }

  function LastOr(s: seq<string>, default: string): string {
    if s == [] then default else s[|s| - 1]
  }

  predicate AllParse(s: seq<string>) {
    forall i :: 0 <= i < |s| ==> ParseInt(s[i]).Some?
  }

  /** The code the last of the number strings denotes, or the default.  */
  function LastCode(s: seq<string>, default: int): int
    requires AllParse(s)
  {
    if s == [] then default else ParseInt(s[|s| - 1]).value
  }

  lemma LastOrConcat(a: seq<string>, b: seq<string>, default: string)
    ensures LastOr(a + b, default) == LastOr(b, LastOr(a, default))
  {
    if b != [] {
      assert (a + b)[|a + b| - 1] == b[|b| - 1];
    } else {
      assert a + b == a;
    }
  }

  lemma AllParseConcat(a: seq<string>, b: seq<string>)
    ensures AllParse(a + b) <==> AllParse(a) && AllParse(b)
  {
    if AllParse(a) && AllParse(b) {
      forall i | 0 <= i < |a + b| ensures ParseInt((a + b)[i]).Some? {
        if i >= |a| { assert (a + b)[i] == b[i - |a|]; }
      }
    }
    if AllParse(a + b) {
      forall i | 0 <= i < |b| ensures ParseInt(b[i]).Some? {
        assert (a + b)[|a| + i] == b[i];
      }
      forall i | 0 <= i < |a| ensures ParseInt(a[i]).Some? {
        assert (a + b)[i] == a[i];
      }
    }
  }

  lemma LastCodeConcat(a: seq<string>, b: seq<string>, default: int)
    requires AllParse(a) && AllParse(b)
    ensures AllParse(a + b) && LastCode(a + b, default) == LastCode(b, LastCode(a, default))
  {
    AllParseConcat(a, b);
    if b != [] {
      assert (a + b)[|a + b| - 1] == b[|b| - 1];
    } else {
      assert a + b == a;
    }
  }

  /** Within one tag, the last attribute with the name wins.  */
  lemma {:induction false} LastValueIsLast(attrs: seq<Attribute>, name: string, current: string)
    ensures LastValue(attrs, name, current) == LastOr(ValuesNamed(attrs, name), current)
    decreases |attrs|
  {
    if attrs != [] {
      var next := if attrs[0].name == name then attrs[0].value else current;
      var head := if attrs[0].name == name then [attrs[0].value] else [];
      LastValueIsLast(attrs[1..], name, next);
      LastOrConcat(head, ValuesNamed(attrs[1..], name), current);
    }
  }

  /** Within one `symbol` tag: the read fails exactly when some `number`
      attribute does not parse, and otherwise the last one wins.  */
  lemma {:induction false} SymbolNumberIsLast(attrs: seq<Attribute>, current: int)
    ensures SymbolNumber(attrs, current).Err? <==> !AllParse(ValuesNamed(attrs, "number"))
    ensures SymbolNumber(attrs, current).Ok? ==>
              SymbolNumber(attrs, current).value == LastCode(ValuesNamed(attrs, "number"), current)
    decreases |attrs|
  {
    if attrs != [] {
      var head := if attrs[0].name == "number" then [attrs[0].value] else [];
      var rest := ValuesNamed(attrs[1..], "number");
      AllParseConcat(head, rest);
      if attrs[0].name == "number" {
        if ParseInt(attrs[0].value).Some? {
          var n := ParseInt(attrs[0].value).value;
          SymbolNumberIsLast(attrs[1..], n);
          if AllParse(rest) { LastCodeConcat(head, rest, current); }
        } else {
          assert !AllParse(head);
        }
      } else {
        SymbolNumberIsLast(attrs[1..], current);
        assert head + rest == rest;
      }
    }
  }

  /** Without the early exit, reading fails exactly when the parser throws or
      some `symbol` number does not parse; a parser error met first is
      reported as IOError.  */
  lemma {:induction false} ReadAllFails(events: seq<Event>, d: WeatherData)
    ensures ReadAll(events, d).Err? <==> Malformed in events || !AllParse(SymbolNumbers(events))
    decreases |events|
  {
    if events != [] {
      var e := events[0];
      AllParseConcat(TagSymbolNumbers(e), SymbolNumbers(events[1..]));
      assert events == [e] + events[1..];
      if e.StartTag? && e.name == "symbol" {
        SymbolNumberIsLast(e.attributes, d.conditionCode);
      }
      match WeatherStep(e, d)
      case Err(f) =>
      case Ok(d1) => ReadAllFails(events[1..], d1);
    }
  }

  /** Without the early exit, the temperature is the last `value` of any
      `temperature` tag and the code the last `number` of any `symbol` tag;
      a field the document never offers keeps its marker.  */
  lemma {:induction false} ReadAllLastWins(events: seq<Event>, d: WeatherData)
    requires ReadAll(events, d).Ok?
    ensures AllParse(SymbolNumbers(events))
    ensures ReadAll(events, d).value.temperature == LastOr(TemperatureValues(events), d.temperature)
    ensures ReadAll(events, d).value.conditionCode == LastCode(SymbolNumbers(events), d.conditionCode)
    decreases |events|
  {
    ReadAllFails(events, d);
    if events != [] {
      var e := events[0];
      var d1 := WeatherStep(e, d).value;
      ReadAllLastWins(events[1..], d1);
      ReadAllFails(events[1..], d1);
      AllParseConcat(TagSymbolNumbers(e), SymbolNumbers(events[1..]));
      LastOrConcat(TagTemperatures(e), TemperatureValues(events[1..]), d.temperature);
      LastCodeConcat(TagSymbolNumbers(e), SymbolNumbers(events[1..]), d.conditionCode);
      if e.StartTag? {
        LastValueIsLast(e.attributes, "value", d.temperature);
        var dt := if e.name == "temperature" then d.(temperature := LastValue(e.attributes, "value", d.temperature)) else d;
        if e.name == "symbol" {
          SymbolNumberIsLast(e.attributes, dt.conditionCode);
        }
      }
    }
  }

  // ----- The early exit -----

  /** After the first k events (read without the early exit) the reading is complete.  */
  predicate CompleteAfter(events: seq<Event>, d: WeatherData, k: nat)
    requires k <= |events|
  {
    ReadAll(events[..k], d).Ok? && Complete(ReadAll(events[..k], d).value)
  }

  lemma PrefixTail(events: seq<Event>, k: nat)
    requires 0 < k <= |events|
    ensures events[..k][0] == events[0] && events[..k][1..] == events[1..][..k - 1]
  {
  }

  /** The loop stops at the first event after which both fields are set: what
      it returns is the reading of the events up to and including that one,
      and nothing after it is read (a malformed tail goes unnoticed).  */
  lemma {:induction false} ScanStopsAtFirstComplete(events: seq<Event>, d: WeatherData, k: nat)
    requires 0 < k <= |events|
    requires CompleteAfter(events, d, k)
    requires forall j :: 0 < j < k ==> !CompleteAfter(events, d, j)
    ensures ScanWeather(events, d) == ReadAll(events[..k], d)
    decreases k
  {
    PrefixTail(events, k);
    assert WeatherStep(events[0], d).Ok?;
    var d1 := WeatherStep(events[0], d).value;
    var rest := events[1..];
    assert ReadAll(events[..k], d) == ReadAll(rest[..k - 1], d1);
    if k == 1 {
      assert rest[..0] == [];
    } else {
      FirstStepIncomplete(events, d, d1);
      forall j | 0 < j < k - 1 ensures !CompleteAfter(rest, d1, j) {
        PrefixTail(events, j + 1);
        assert !CompleteAfter(events, d, j + 1);
      }
      ScanStopsAtFirstComplete(rest, d1, k - 1);
    }
  }

  lemma FirstStepIncomplete(events: seq<Event>, d: WeatherData, d1: WeatherData)
    requires 0 < |events| && WeatherStep(events[0], d) == Ok(d1)
    requires !CompleteAfter(events, d, 1)
    ensures !Complete(d1)
    ensures ScanWeather(events, d) == ScanWeather(events[1..], d1)
  {
    PrefixTail(events, 1);
    assert events[1..][..0] == [];
    assert ReadAll(events[..1], d) == Ok(d1);
  }

  /** If the reading is never complete, the loop reads the whole document.  */
  lemma {:induction false} ScanReadsToEnd(events: seq<Event>, d: WeatherData)
    requires forall j :: 0 < j <= |events| ==> !CompleteAfter(events, d, j)
    ensures ScanWeather(events, d) == ReadAll(events, d)
    decreases |events|
  {
    if events != [] {
      match WeatherStep(events[0], d)
      case Err(f) =>
      case Ok(d1) =>
        FirstStepIncomplete(events, d, d1);
        var rest := events[1..];
        forall j | 0 < j <= |rest| ensures !CompleteAfter(rest, d1, j) {
          PrefixTail(events, j + 1);
          assert ReadAll(events[..j + 1], d) == ReadAll(rest[..j], d1);
          assert !CompleteAfter(events, d, j + 1);
        }
        ScanReadsToEnd(rest, d1);
    }
  }

  /** The loop, early exit included, fails only where the parser throws or a
      `symbol` number does not parse.  */
  lemma {:induction false} ScanFailsOnlyOn(events: seq<Event>, d: WeatherData)
    ensures ScanWeather(events, d).Err? ==> Malformed in events || !AllParse(SymbolNumbers(events))
    decreases |events|
  {
    if events != [] {
      var e := events[0];
      AllParseConcat(TagSymbolNumbers(e), SymbolNumbers(events[1..]));
      assert events == [e] + events[1..];
      if e.StartTag? && e.name == "symbol" {
        SymbolNumberIsLast(e.attributes, d.conditionCode);
      }
      match WeatherStep(e, d)
      case Err(f) =>
      case Ok(d1) => ScanFailsOnlyOn(events[1..], d1);
    }
  }

  /** A document that never offers a `symbol` number and never makes the
      parser throw is read without an error.  */
  lemma NoSymbolNoError(events: seq<Event>, d: WeatherData)
    requires Malformed !in events && SymbolNumbers(events) == []
    ensures ScanWeather(events, d).Ok?
  {
    ScanFailsOnlyOn(events, d);
  }

  /** On a successful read, a field the document never offers keeps its marker.  */
  lemma {:induction false} ScanKeepsUnseenFields(events: seq<Event>, d: WeatherData)
    requires ScanWeather(events, d).Ok?
    ensures TemperatureValues(events) == [] ==> ScanWeather(events, d).value.temperature == d.temperature
    ensures SymbolNumbers(events) == [] ==> ScanWeather(events, d).value.conditionCode == d.conditionCode
    decreases |events|
  {
    if events != [] {
      var e := events[0];
      var d1 := WeatherStep(e, d).value;
      if e.StartTag? {
        LastValueIsLast(e.attributes, "value", d.temperature);
        var dt := if e.name == "temperature" then d.(temperature := LastValue(e.attributes, "value", d.temperature)) else d;
        if e.name == "symbol" {
          SymbolNumberIsLast(e.attributes, dt.conditionCode);
        }
      }
      if !Complete(d1) {
        ScanKeepsUnseenFields(events[1..], d1);
      }
    }
  }
}
