/** Concrete events run through the extraction and the formatter, with the
    narrow anchor extractor standing in for the HTML library. */
module Scenarios {
  import opened Js
  import opened Text
  import opened Anchor
  import opened Events
  import opened Formatter

  /** The libraries with the narrow anchor extractor and a given epoch
      conversion. */
  function WithAnchorText(unixSeconds: Option<string> -> string): (libs: Libraries)
    ensures libs.anchorText("") == ""
  {
    Libraries(AnchorText, unixSeconds)
  }

  /** A lone anchor `<a attrs>caption</a>` holds no `<br>`: its only '<'
      characters open and close the element. */
  lemma AnchorHasNoBreak(attrs: string, caption: string)
    requires '<' !in attrs && '<' !in caption
    ensures !Contains(AnchorStart + attrs + TagEnd + caption + AnchorEnd, Break)
  {
    var inside := attrs + TagEnd + caption;
    var html := AnchorStart + inside + AnchorEnd;
    assert html == AnchorStart + attrs + TagEnd + caption + AnchorEnd;
    forall i | 0 <= i && i + |Break| <= |html|
      ensures !MatchAt(html, Break, i)
    {
      var w := html[i..i + |Break|];
      assert w[0] == html[i] && w[1] == html[i + 1];
      if i == 0 {
        assert html[1] == 'a';
      } else if i + 4 == |html| {
        assert html[i + 1] == '/';
      } else if i == 1 {
        assert html[1] == 'a';
      } else {
        assert html[i] == inside[i - 2];
      }
    }
  }

  /** When the first segment of a description is one well-formed anchor,
      the link is the anchor's text. */
  lemma AnchorSegmentGivesCaption(event: RawEvent, attrs: string, caption: string, rest: string, libs: Libraries)
    requires attrs == "" || attrs[0] == ' '
    requires '<' !in attrs && '>' !in attrs && '<' !in caption
    requires libs.anchorText == AnchorText
    requires event.description == Some(AnchorStart + attrs + TagEnd + caption + AnchorEnd + Break + rest)
    ensures Extract(event, libs).registrationLink == if caption != "" then caption else AnchorStart + attrs + TagEnd + AnchorEnd
  {
    var segment := AnchorStart + attrs + TagEnd + caption + AnchorEnd;
    AnchorHasNoBreak(attrs, caption);
    FirstSegmentBeforeBreak(segment, rest);
    assert OrEmpty(Segment(event.description)) == segment;
    SingleAnchorText(attrs, caption);
    assert libs.anchorText(segment) == caption;
    assert caption == "" ==> segment == AnchorStart + attrs + TagEnd + AnchorEnd;
    assert Extract(event, libs).registrationLink == if caption != "" then caption else segment;
  }

  /** A description that starts with a bare URL: the link is that URL,
      `"https://x/y<br>extra"` giving `"https://x/y"`. */
  lemma PlainDescriptionGivesSegment(event: RawEvent, unixSeconds: Option<string> -> string)
    requires event.description == Some("https://x/y<br>extra")
    ensures Extract(event, WithAnchorText(unixSeconds)).registrationLink == "https://x/y"
  {
    var segment := "https://x/y";
    assert event.description.value == segment + Break + "extra";
    NoMatchWithoutFirstChar(segment, Break);
    FirstSegmentBeforeBreak(segment, "extra");
    NoMatchWithoutFirstChar(segment, AnchorStart);
  }

  /** Two events in the window, one with a linked description and one with
      no description: the message has two lines, in the order of the events,
      and the second line links to "". */
  lemma TwoEventsTwoLines(first: RawEvent, second: RawEvent, unixSeconds: Option<string> -> string)
    requires first.summary == Some("Open Cup")
    requires first.description == Some(LinkedDescription)
    requires second.summary == Some("Weekly") && second.description == None
    requires '\n' !in unixSeconds(StartValue(first.start))
    requires '\n' !in unixSeconds(StartValue(second.start))
    ensures Split(Message([first, second], WithAnchorText(unixSeconds)), Newline) == [
        TournamentLine(Tournament("Open Cup", "Sign up", unixSeconds(StartValue(first.start)))),
        TournamentLine(Tournament("Weekly", "", unixSeconds(StartValue(second.start))))]
  {
    var r1 := Tournament("Open Cup", "Sign up", unixSeconds(StartValue(first.start)));
    var r2 := Tournament("Weekly", "", unixSeconds(StartValue(second.start)));
    LinkedEventRecord(first, unixSeconds);
    UnlinkedEventRecord(second, unixSeconds);
    assert NewlineFree(r1) && NewlineFree(r2);
    TwoRecordsTwoLines(first, second, WithAnchorText(unixSeconds), r1, r2);
  }

  /** The description `<a href="https://x/y">Sign up</a><br>extra`, written
      in the pieces the extraction looks for. */
  const LinkedDescription := AnchorStart + " href=\"https://x/y\"" + TagEnd + "Sign up" + AnchorEnd + Break + "extra"

  /** An event whose description starts with an anchor:
      `<a href="https://x/y">Sign up</a><br>extra` gives the link `Sign up`. */
  lemma LinkedEventRecord(event: RawEvent, unixSeconds: Option<string> -> string)
    requires event.summary == Some("Open Cup")
    requires event.description == Some(LinkedDescription)
    ensures Extract(event, WithAnchorText(unixSeconds))
         == Tournament("Open Cup", "Sign up", unixSeconds(StartValue(event.start)))
  {
    var attrs := " href=\"https://x/y\"";
    AnchorSegmentGivesCaption(event, attrs, "Sign up", "extra", WithAnchorText(unixSeconds));
  }

  /** An event with no description links to "". */
  lemma UnlinkedEventRecord(event: RawEvent, unixSeconds: Option<string> -> string)
    requires event.summary == Some("Weekly") && event.description == None
    ensures Extract(event, WithAnchorText(unixSeconds))
         == Tournament("Weekly", "", unixSeconds(StartValue(event.start)))
  {
    NoDescriptionNoLink(AnchorText);
  }

  /** The message for two events is the lines of their two records. */
  lemma TwoRecordsTwoLines(first: RawEvent, second: RawEvent, libs: Libraries, r1: Tournament, r2: Tournament)
    requires Extract(first, libs) == r1 && Extract(second, libs) == r2
    requires NewlineFree(r1) && NewlineFree(r2)
    ensures Split(Message([first, second], libs), Newline) == [TournamentLine(r1), TournamentLine(r2)]
  {
    var events := [first, second];
    assert events[0] == first && events[1] == second;
    MessageLines(events, libs);
    var lines := Split(Message(events, libs), Newline);
    assert lines[0] == TournamentLine(r1);
    assert lines[1] == TournamentLine(r2);
  }
}
