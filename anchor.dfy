/** A narrow stand-in for the HTML query `$("a").text()` that the bot runs
    on the first segment of an event description. */
module Anchor {
  import opened Text

  const AnchorStart := "<a"
  const TagEnd := ">"
  const AnchorEnd := "</a>"

  /** The text of every `<a ...>...</a>` element of `html`, concatenated in
      document order, and "" when there is none. The text of an element that
      is never closed runs to the end of the input. */
  function AnchorText(html: string): (text: string)
    ensures !Contains(html, AnchorStart) ==> text == ""
    ensures |text| <= |html|
    decreases |html|
  {
    var open := FirstMatch(html, AnchorStart, 0);
    if open == |html| then ""
    else
      var gt := FirstMatch(html, TagEnd, open + |AnchorStart|);
      if gt == |html| then ""
      else
        var close := FirstMatch(html, AnchorEnd, gt + 1);
        var text := html[gt + 1..close];
        if close == |html| then text
        else text + AnchorText(html[close + |AnchorEnd|..])
  }

  /** A single well-formed anchor `<a attrs>caption</a>`, whose attributes
      (if any) are separated from the tag name by a space, yields its
      caption text. */
  lemma SingleAnchorText(attrs: string, caption: string)
    requires attrs == "" || attrs[0] == ' '
    requires '<' !in attrs && '>' !in attrs && '<' !in caption
    ensures AnchorText(AnchorStart + attrs + TagEnd + caption + AnchorEnd) == caption
  {
    var opening := AnchorStart + attrs;
    var body := opening + TagEnd + caption;
    var html := body + AnchorEnd;
    assert html[0..2] == AnchorStart;
    assert FirstMatch(html, AnchorStart, 0) == 0;
    OpeningTagEnds(attrs, caption);
    var gt := |opening|;
    ClosingTagFollowsCaption(attrs, caption);
    var close := |body|;
    assert html[gt + 1..close] == caption;
    assert html[close + |AnchorEnd|..] == "";
  }

  /** The first `>` after `<a` ends the opening tag. */
  lemma OpeningTagEnds(attrs: string, caption: string)
    requires '>' !in attrs
    ensures FirstMatch(AnchorStart + attrs + TagEnd + caption + AnchorEnd, TagEnd, 2) == 2 + |attrs|
  {
    var opening := AnchorStart + attrs;
    NoMatchFrom(opening, TagEnd, 2);
    assert AnchorStart + attrs + TagEnd + caption + AnchorEnd == opening + TagEnd + (caption + AnchorEnd);
    FirstMatchAfter(opening, TagEnd, caption + AnchorEnd, 2);
  }

  /** The first `</a>` after the opening tag comes right after the caption. */
  lemma ClosingTagFollowsCaption(attrs: string, caption: string)
    requires '<' !in caption
    ensures var body := AnchorStart + attrs + TagEnd + caption;
      FirstMatch(body + AnchorEnd, AnchorEnd, 3 + |attrs|) == |body|
  {
    var body := AnchorStart + attrs + TagEnd + caption;
    NoMatchFrom(body, AnchorEnd, 3 + |attrs|);
    assert body + AnchorEnd == body + AnchorEnd + "";
    FirstMatchAfter(body, AnchorEnd, "", 3 + |attrs|);
  }
}
