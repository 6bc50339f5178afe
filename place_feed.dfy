/** Reading the town and country out of the place-search document.  */
module PlaceFeed {
  import opened Wrappers
  import opened PullParser

  /** The town and country as read so far; null until their tag is seen.  */
  datatype LocationInfo = LocationInfo(country: Option<string>, town: Option<string>)

  const NoLocation: LocationInfo := LocationInfo(None, None)

  /** What one iteration of the loop does with the event it is looking at: a
      `locality1` or `country` start tag overwrites its field with the
      element's text.  */
  function PlaceStep(e: Event, li: LocationInfo): (r: Result<LocationInfo>)
    ensures r.Err? <==> BadEvent(e)
    ensures r.Err? ==> r.failure == IOError
    ensures r.Ok? ==> r.value.town == (if IsTag(e, "locality1") then e.text else li.town)
    ensures r.Ok? ==> r.value.country == (if IsTag(e, "country") then e.text else li.country)
  {
    match e
    case Malformed => Err(IOError)
    case OtherEvent => Ok(li)
    case StartTag(name, _, text) =>
      if name == "locality1" then (if text.None? then Err(IOError) else Ok(li.(town := text)))
      else if name == "country" then (if text.None? then Err(IOError) else Ok(li.(country := text)))
      else Ok(li)
  }

  /** The loop: every event up to END_DOCUMENT, with no early exit.  */
  function ScanPlace(events: seq<Event>, li: LocationInfo): (r: Result<LocationInfo>)
    ensures r.Err? ==> r.failure == IOError
    decreases |events|
  {
    if events == [] then Ok(li)
    else
      match PlaceStep(events[0], li)
      case Err(f) => Err(f)
      case Ok(li1) => ScanPlace(events[1..], li1)
  }

  /** getLocationInfo on a document: the scan, then the check that a town
      name was found.  */
  function LocationInfoFor(events: seq<Event>): (r: Result<LocationInfo>)
    ensures r.Ok? ==> r.value.town.Some? && r.value.town.value != ""
    ensures r.Err? ==> r.failure == IOError || r.failure == InvalidLocation
  {
    match ScanPlace(events, NoLocation)
    case Err(f) => Err(f)
    case Ok(li) => if li.town.None? || li.town.value == "" then Err(InvalidLocation) else Ok(li)
  }

  /** The place lookup: fetch the document, read every event, and fail with
      InvalidLocation when no non-empty town name was read.  */
  method GetLocationInfo(feed: Feed) returns (r: Result<LocationInfo>)
    ensures feed.Unreachable? ==> r == Err(IOError)
    ensures feed.Document? ==> r == LocationInfoFor(feed.events)
    ensures r.Ok? ==> r.value.town.Some? && r.value.town.value != ""
  {
    if feed.Unreachable? {
      return Err(IOError);
    }
    var events := feed.events;
    var li := NoLocation;
    var i := 0;
    while i < |events|
      invariant 0 <= i <= |events|
      invariant ScanPlace(events[i..], li) == ScanPlace(events, NoLocation)
    {
      assert events[i..][0] == events[i] && events[i..][1..] == events[i + 1..];
      match events[i] {
        case Malformed =>
          return Err(IOError);
        case OtherEvent =>
        case StartTag(name, _, text) =>
          if name == "locality1" {
            if text.None? {
              return Err(IOError);
            }
            li := li.(town := text);
          }
          if name == "country" {
            if text.None? {
              return Err(IOError);
            }
            li := li.(country := text);
          }
      }
      i := i + 1;
    }
    if li.town.Some? && li.town.value != "" {
      return Ok(li);
    }
    return Err(InvalidLocation);
  }

  // ----- What the scan reads -----

  predicate IsTag(e: Event, name: string) {
    e.StartTag? && e.name == name
  }

  /** An event at which the parser throws: a malformed point, or a town or
      country element whose content is not plain text.  */
  predicate BadEvent(e: Event) {
    e.Malformed? || ((IsTag(e, "locality1") || IsTag(e, "country")) && e.text.None?)
  }

  predicate IsField(name: string) {
    name == "locality1" || name == "country"
  }

  function Field(li: LocationInfo, name: string): Option<string>
    requires IsField(name)
  {
    if name == "locality1" then li.town else li.country
  }

  /** The whole document is read: the scan fails exactly when some event,
      anywhere in it, makes the parser throw.  */
  lemma {:induction false} ScanPlaceFails(events: seq<Event>, li: LocationInfo)
    ensures ScanPlace(events, li).Err? <==> exists i :: 0 <= i < |events| && BadEvent(events[i])
    decreases |events|
  {
    if events != [] {
      match PlaceStep(events[0], li)
      case Err(f) =>
        assert BadEvent(events[0]);
      case Ok(li1) =>
        ScanPlaceFails(events[1..], li1);
        assert !BadEvent(events[0]);
        if exists i :: 0 <= i < |events| && BadEvent(events[i]) {
          var i :| 0 <= i < |events| && BadEvent(events[i]);
          assert BadEvent(events[1..][i - 1]);
        }
        if exists i :: 0 <= i < |events[1..]| && BadEvent(events[1..][i]) {
          var i :| 0 <= i < |events[1..]| && BadEvent(events[1..][i]);
          assert BadEvent(events[i + 1]);
        }
    }
  }

  /** A field whose tag never appears keeps the value it had.  */
  lemma {:induction false} ScanPlaceKeepsUnseen(events: seq<Event>, li: LocationInfo, name: string)
    requires IsField(name)
    requires ScanPlace(events, li).Ok?
    requires forall j :: 0 <= j < |events| ==> !IsTag(events[j], name)
    ensures Field(ScanPlace(events, li).value, name) == Field(li, name)
    decreases |events|
  {
    if events != [] {
      var li1 := PlaceStep(events[0], li).value;
      assert Field(li1, name) == Field(li, name);
      forall j | 0 <= j < |events[1..]| ensures !IsTag(events[1..][j], name) {
        assert events[1..][j] == events[j + 1];
      }
      ScanPlaceKeepsUnseen(events[1..], li1, name);
    }
  }

  /** Last wins: a field ends as the text of the last element with its tag.  */
  lemma {:induction false} ScanPlaceLastWins(events: seq<Event>, li: LocationInfo, name: string, k: nat)
    requires IsField(name)
    requires ScanPlace(events, li).Ok?
    requires k < |events| && IsTag(events[k], name)
    requires forall j :: k < j < |events| ==> !IsTag(events[j], name)
    ensures Field(ScanPlace(events, li).value, name) == events[k].text
    decreases k
  {
    var li1 := PlaceStep(events[0], li).value;
    var rest := events[1..];
    if k == 0 {
      forall j | 0 <= j < |rest| ensures !IsTag(rest[j], name) {
        assert rest[j] == events[j + 1];
      }
      ScanPlaceKeepsUnseen(rest, li1, name);
    } else {
      forall j | k - 1 < j < |rest| ensures !IsTag(rest[j], name) {
        assert rest[j] == events[j + 1];
      }
      ScanPlaceLastWins(rest, li1, name, k - 1);
    }
  }

  /** A document that parses but has no `locality1` element yields
      InvalidLocation, not a transport error.  */
  lemma NoTownIsInvalidLocation(events: seq<Event>)
    requires forall i :: 0 <= i < |events| ==> !BadEvent(events[i])
    requires forall j :: 0 <= j < |events| ==> !IsTag(events[j], "locality1")
    ensures LocationInfoFor(events) == Err(InvalidLocation)
  {
    ScanPlaceFails(events, NoLocation);
    ScanPlaceKeepsUnseen(events, NoLocation, "locality1");
  }

  /** With a parsable document, the outcome is decided by the last
      `locality1` element: InvalidLocation when its text is empty, otherwise
      that text is the town.  */
  lemma TownFromLastLocality(events: seq<Event>, k: nat)
    requires forall i :: 0 <= i < |events| ==> !BadEvent(events[i])
    requires k < |events| && IsTag(events[k], "locality1")
    requires forall j :: k < j < |events| ==> !IsTag(events[j], "locality1")
    ensures events[k].text.Some?
    ensures events[k].text.value == "" <==> LocationInfoFor(events) == Err(InvalidLocation)
    ensures events[k].text.value != "" ==> LocationInfoFor(events).Ok? && LocationInfoFor(events).value.town == events[k].text
  {
    assert !BadEvent(events[k]);
    ScanPlaceFails(events, NoLocation);
    ScanPlaceLastWins(events, NoLocation, "locality1", k);
  }
}
