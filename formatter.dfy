/** The Discord message the bot sends: one line per tournament
    (`tournamentLine`), joined by newlines, or a fixed text when the calendar
    has no events in the window. */
module Formatter {
  import opened Js
  import opened Text
  import opened Events

  /** The message sent when the calendar returns no events. */
  const NoTournaments := "No tournaments found!"

  /** The fixed text before the start date: a block quote, a list bullet,
      the opening of a link label and of a Discord timestamp token. */
  const LineStart := "> - [<t:"

  /** Between the start date and the title: the end of the timestamp token
      (`f` is Discord's short date-time style). */
  const DateEnd := ":f> "

  /** Between the title and the link target. */
  const LinkStart := "](<"

  /** After the link target. */
  const LineEnd := ">)"

  const Newline := "\n"

  /** `> - [<t:${startDate}:f> ${title}](<${registrationLink}>)`. */
  function TournamentLine(t: Tournament): (line: string)
    ensures LineStart <= line
    ensures |line| == |LineStart| + |t.startDate| + |DateEnd| + |t.title| + |LinkStart| + |t.registrationLink| + |LineEnd|
    ensures line[|line| - |LineEnd|..] == LineEnd
  {
    LineStart + t.startDate + DateEnd + t.title + LinkStart + t.registrationLink + LineEnd
  }

  /** Reads the three fields back from a line: the start date runs to the
      first ':' after the line start, the link target starts after the last
      '<' and ends before the closing `>)`. */
  function ParseLine(line: string): (r: Option<Tournament>)
    ensures r.Some? ==> LineStart <= line
  {
    if LineStart <= line then ParseFields(line[|LineStart|..]) else None
  }

  /** The part of a line after `LineStart`: `date:f> title](<link>)`. */
  function ParseFields(rest: string): Option<Tournament> {
    var k := FirstMatch(rest, ":", 0);
    var afterDate := rest[k..];
    if !(DateEnd <= afterDate) then None
    else
      match ParseTitleLink(afterDate[|DateEnd|..])
      case None => None
      case Some(fields) => Some(Tournament(title := fields.0, registrationLink := fields.1, startDate := rest[..k]))
  }

  /** The part of a line after the timestamp token: `title](<link>)`. */
  function ParseTitleLink(inner: string): Option<(string, string)> {
    if |inner| < |LineEnd| || inner[|inner| - |LineEnd|..] != LineEnd then None
    else
      var mid := inner[..|inner| - |LineEnd|];
      match LastIndexOf(mid, '<')
      case None => None
      case Some(j) =>
        if j < 2 || mid[j - 2..j] != "](" then None
        else Some((mid[..j - 2], mid[j + 1..]))
  }

  lemma ParseTitleLinkInverse(title: string, link: string)
    requires '<' !in link
    ensures ParseTitleLink(title + LinkStart + link + LineEnd) == Some((title, link))
  {
    var inner := title + LinkStart + link + LineEnd;
    var before := title + "](";
    var mid := before + "<" + link;
    assert inner == mid + LineEnd;
    assert inner[|inner| - |LineEnd|..] == LineEnd;
    assert inner[..|inner| - |LineEnd|] == mid;
    LastIndexAfter(before, '<', link);
    var j := |before|;
    assert mid[j - 2..j] == "](";
    assert mid[..j - 2] == title;
    assert mid[j + 1..] == link;
  }

  lemma ParseFieldsInverse(t: Tournament)
    requires ':' !in t.startDate && '<' !in t.registrationLink
    ensures ParseFields(t.startDate + DateEnd + t.title + LinkStart + t.registrationLink + LineEnd) == Some(t)
  {
    var inner := t.title + LinkStart + t.registrationLink + LineEnd;
    var afterDate := DateEnd + inner;
    var rest := t.startDate + afterDate;
    assert rest == t.startDate + DateEnd + t.title + LinkStart + t.registrationLink + LineEnd;
    NoMatchWithoutFirstChar(t.startDate, ":");
    assert ":"[1..] == [];
    assert afterDate == ":" + afterDate[1..];
    assert rest == t.startDate + ":" + afterDate[1..];
    FirstMatchAfter(t.startDate, ":", afterDate[1..], 0);
    var k := |t.startDate|;
    assert rest[..k] == t.startDate;
    assert rest[k..] == afterDate;
    assert afterDate[..|DateEnd|] == DateEnd;
    assert afterDate[|DateEnd|..] == inner;
    ParseTitleLinkInverse(t.title, t.registrationLink);
  }

  /** A line gives back the record it was made from, provided the start date
      has no ':' (it is a decimal number of seconds) and the link has no '<'. */
  lemma ParseTournamentLine(t: Tournament)
    requires ':' !in t.startDate && '<' !in t.registrationLink
    ensures ParseLine(TournamentLine(t)) == Some(t)
  {
    var line := TournamentLine(t);
    var rest := t.startDate + DateEnd + t.title + LinkStart + t.registrationLink + LineEnd;
    assert line == LineStart + rest;
    assert line[..|LineStart|] == LineStart;
    assert line[|LineStart|..] == rest;
    ParseFieldsInverse(t);
  }

  /** None of the fields of a record holds a newline. */
  predicate NewlineFree(t: Tournament) {
    '\n' !in t.startDate && '\n' !in t.title && '\n' !in t.registrationLink
  }

  /** A line has no newline exactly when none of its fields has one. */
  lemma LineNewlineFree(t: Tournament)
    ensures '\n' !in TournamentLine(t) <==> NewlineFree(t)
  {
  }

  /** `events.map(extractTournamentInfo)`. */
  function Records(events: seq<RawEvent>, libs: Libraries): (records: seq<Tournament>)
    ensures |records| == |events|
    ensures forall i :: 0 <= i < |events| ==> records[i] == Extract(events[i], libs)
  {
    if |events| == 0 then [] else [Extract(events[0], libs)] + Records(events[1..], libs)
  }

  /** `records.map(tournamentLine)`. */
  function Lines(records: seq<Tournament>): (lines: seq<string>)
    ensures |lines| == |records|
    ensures forall i :: 0 <= i < |records| ==> lines[i] == TournamentLine(records[i])
  {
    if |records| == 0 then [] else [TournamentLine(records[0])] + Lines(records[1..])
  }

  /** The content the bot sends for the events of the window. */
  function Message(events: seq<RawEvent>, libs: Libraries): (message: string)
    ensures message == NoTournaments <==> |events| == 0
    ensures |events| > 0 ==> TournamentLine(Extract(events[0], libs)) <= message
  {
    if |events| == 0 then NoTournaments
    else
      var lines := Lines(Records(events, libs));
      assert NoTournaments[0] != LineStart[0];
      Join(lines, Newline)
  }

  /** When no field of any record holds a newline, the message splits on
      newlines into exactly one line per event, in the order of the events. */
  lemma MessageLines(events: seq<RawEvent>, libs: Libraries)
    requires |events| > 0
    requires forall i :: 0 <= i < |events| ==> NewlineFree(Extract(events[i], libs))
    ensures var lines := Split(Message(events, libs), Newline);
      && |lines| == |events|
      && forall i :: 0 <= i < |events| ==> lines[i] == TournamentLine(Extract(events[i], libs))
  {
    var lines := Lines(Records(events, libs));
    forall i | 0 <= i < |lines|
      ensures !Contains(lines[i], Newline)
    {
      LineNewlineFree(Extract(events[i], libs));
      ContainsChar(lines[i], '\n');
    }
    SplitJoin(lines, Newline);
  }
}
