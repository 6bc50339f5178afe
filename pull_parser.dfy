/** The event stream an XmlPullParser delivers, abstracted from XML text.

    A document is the sequence of events the parser reports, from
    getEventType() through the successive next() calls; the end of the
    sequence is END_DOCUMENT.  */
module PullParser {

  import opened Wrappers

  datatype Attribute = Attribute(name: string, value: string)

  datatype Event =
      /** A START_TAG with its name and attributes.  `text` is what nextText()
          returns when called on this tag (None: nextText() throws because the
          element holds more than text); the event that follows in the
          sequence is what next() reports after that call.  */
    | StartTag(name: string, attributes: seq<Attribute>, text: Option<string>)
      /** Any other event: START_DOCUMENT, END_TAG, TEXT and so on.  */
    | OtherEvent
      /** A point where the parser throws XmlPullParserException instead of
          reporting an event.  */
    | Malformed

  /** A request for a feed: either the connection fails, or the response
      is a document.  */
  datatype Feed = Unreachable | Document(events: seq<Event>)
}
