/** Extraction of a tournament record from one Google Calendar event
    (`extractTournamentInfo` in src/index.js). */
module Events {
  import opened Js
  import opened Text

  /** The marker that separates the logical fields of a description. */
  const Break := "<br>"

  /** The `start` of a calendar event: a timestamp for timed events, a
      calendar date for all-day events. */
  datatype EventTime = EventTime(dateTime: Option<string>, date: Option<string>)

  /** The fields of a calendar event that the bot reads. */
  datatype RawEvent = RawEvent(summary: Option<string>, description: Option<string>, start: Option<EventTime>)

  /** What the bot announces about one event. */
  datatype Tournament = Tournament(title: string, registrationLink: string, startDate: string)

  /** The two library calls the extraction makes: the text of the anchors of
      an HTML snippet (cheerio's `$("a").text()`, which never fails) and the
      epoch seconds of a start value, as a decimal string (dayjs's
      `dayjs(start).unix().toString()`). */
  datatype Libraries = Libraries(anchorText: string -> string, unixSeconds: Option<string> -> string)

  /** `description.split("<br>")[0]`: the description up to its first `<br>`. */
  function FirstSegment(description: string): (segment: string)
    ensures segment <= description
    ensures !Contains(segment, Break)
    ensures segment == description <==> !Contains(description, Break)
    ensures segment != description ==> MatchAt(description, Break, |segment|)
  {
    var k := FirstMatch(description, Break, 0);
    assert Split(description, Break)[0] == description[..k];
    assert k < |description| ==> MatchAt(description, Break, k);
    Split(description, Break)[0]
  }

  /** `event.start?.dateTime || event.start?.date`: the timestamp of a timed
      event, and the date only when there is no non-empty timestamp. */
  function StartValue(start: Option<EventTime>): (v: Option<string>)
    ensures start.None? ==> v.None?
    ensures start.Some? && Truthy(start.value.dateTime) ==> v == start.value.dateTime
    ensures start.Some? && !Truthy(start.value.dateTime) ==> v == start.value.date
  {
    match start
    case None => None
    case Some(t) => Or(t.dateTime, t.date)
  }

  /** `event.description?.split("<br>")[0]`: absent exactly when the
      description is, and otherwise a prefix of it with no `<br>`. */
  function Segment(description: Option<string>): (segment: Option<string>)
    ensures segment.None? <==> description.None?
    ensures segment.Some? ==> segment.value <= description.value && !Contains(segment.value, Break)
  {
    match description
    case None => None
    case Some(d) => Some(FirstSegment(d))
  }

  /** `$("a").text() || segment`, then `link || ""`, where `$` is loaded from
      `segment || ""`: the anchor text of the first segment when that is
      non-empty, and otherwise the first segment itself (possibly ""). */
  function RegistrationLink(description: Option<string>, anchorText: string -> string): (link: string)
    ensures var segment := OrEmpty(Segment(description));
      link == if anchorText(segment) != "" then anchorText(segment) else segment
  {
    var segment := Segment(description);
    var link := Or(Some(anchorText(OrEmpty(segment))), segment);
    OrEmpty(link)
  }

  /** `extractTournamentInfo(event)`: the summary (or "") as the title, the
      link of the description (`RegistrationLink`), and the epoch seconds of
      the start value. */
  function Extract(event: RawEvent, libs: Libraries): (t: Tournament)
    ensures t.title != "" <==> Truthy(event.summary)
    ensures Truthy(event.summary) ==> t.title == event.summary.value
    ensures t.registrationLink == RegistrationLink(event.description, libs.anchorText)
    ensures t.startDate == libs.unixSeconds(StartValue(event.start))
  {
    Tournament(
      title := OrEmpty(event.summary),
      registrationLink := RegistrationLink(event.description, libs.anchorText),
      startDate := libs.unixSeconds(StartValue(event.start)))
  }

  /** The first segment ends right before the first `<br>`: whatever follows
      it is not looked at. */
  lemma FirstSegmentBeforeBreak(p: string, rest: string)
    requires !Contains(p, Break)
    ensures FirstSegment(p + Break + rest) == p
  {
    assert Break[0] !in Break[1..];
    FirstMatchAfter(p, Break, rest, 0);
    var d := p + Break + rest;
    assert d[..|p|] == p;
  }

  /** With no description the link is "" (the anchor query finds nothing in
      an empty document). */
  lemma NoDescriptionNoLink(anchorText: string -> string)
    requires anchorText("") == ""
    ensures RegistrationLink(None, anchorText) == ""
  {
  }

  /** Editing the description after its first `<br>` leaves the extracted
      record unchanged. */
  lemma ExtractIgnoresTextAfterBreak(event: RawEvent, p: string, rest1: string, rest2: string, libs: Libraries)
    requires !Contains(p, Break)
    ensures Extract(event.(description := Some(p + Break + rest1)), libs)
         == Extract(event.(description := Some(p + Break + rest2)), libs)
  {
    FirstSegmentBeforeBreak(p, rest1);
    FirstSegmentBeforeBreak(p, rest2);
  }
}
