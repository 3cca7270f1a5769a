# Upcoming-tournaments notifier: a Dafny model of its message pipeline

The bot reads the next day's events from a Google Calendar, turns each event
into a tournament record, and posts one Discord message listing them. Each
record holds a title, a registration link and a start timestamp. This project
models the part between the two network calls, as pure functions with proofs:

- `Events`: tournament extraction (`extractTournamentInfo`).
  - The first segment is the description up to its first `<br>`.
  - The registration link is the anchor text of that segment. If that is
    empty, it is the segment itself. If there is no description, it is `""`.
  - The title is the summary, or `""`.
  - The start value is `start.dateTime`, or else `start.date`.
- `Formatter`: rendering.
  - `tournamentLine` is the fixed template
    `> - [<t:DATE:f> TITLE](<LINK>)`.
  - The message is the newline-join of the lines, in event order.
  - With no events, the message is the fixed text `No tournaments found!`.
- `TimeWindow`: the query window, from `now` to `now.add(1, "day")` in UTC.
- `Config`: the start-up checks of the required settings, in source order.
- `Pipeline`: one run of `main`.
  - The settings are checked first.
  - Then the calendar is queried. The calendar call is the `fetch`
    parameter; the query is built from the settings and `now`.
  - Then the message for the returned events is built and handed to the
    webhook.
- `Text`: JavaScript's `split`, `join` and `indexOf`, with the round trips
  between `split` and `join`.
- `Anchor`: a narrow stand-in for cheerio's `$("a").text()`.
- `Js`: values that may be `undefined`, and `||` on strings.
- `Scenarios`: the following concrete cases.
  - A description that starts with an anchor gives the anchor text as the
    link.
  - A description that starts with a bare URL gives that URL as the link.
  - Two events, one linked and one with no description, give a two-line
    message.

The two library calls of the extraction are fields of the `Events.Libraries`
datatype: cheerio's anchor-text query and dayjs's conversion to epoch
seconds. The extraction and the message are proved for every choice of
them. The scenarios use `Anchor.AnchorText` for the first field.

Notes on what the code does, which its comments and names do not always
suggest:

- The link is not the first hyperlink's target. It is the concatenated
  visible text of every anchor in the first segment (src/index.js:52).
- The start date is a decimal string, not an integer. With no start field,
  dayjs is called on `undefined`, so the model passes the absent value to the
  conversion.
- AVATAR_URL is commented as optional (src/index.js:38-42). Yet `main`
  requires it (src/index.js:139), and its error message names WEBHOOK_URL
  (src/index.js:140). The model keeps both behaviours as written.
- The window is rolling: it runs from the current instant to one day later.
  It is not aligned to calendar days.

## Model

| member | source | states |
|---|---|---|
| `Js.Or` | src/index.js:50-55 | JavaScript's or of two strings is truthy exactly when one of them is; it is the first when that is truthy and the second otherwise |
| `Js.OrEmpty` | src/index.js:51-55 | the or of a string with `""` is non-empty exactly when the string is truthy, and is then that string |
| `Text.Split` | src/index.js:51-52 | `split` with a non-empty separator returns at least one piece, and no piece contains the separator |
| `Text.FirstMatch` | src/index.js:51 | the search used by `split` returns the first index at or after `from` where the pattern occurs, or the length when it does not occur |
| `Text.Join` | src/index.js:164 | `join` of no parts is `""`, and a join of one or more parts starts with the first part |
| `Text.JoinSplit` | src/index.js:51 | joining the pieces of `split` with the separator gives back the original string, for every string |
| `Text.SplitJoin` | src/index.js:164 | splitting a newline-join of lines that contain no newline gives back exactly those lines |
| `Anchor.AnchorText` | src/index.js:51-52 | the anchor-text stand-in returns `""` when the snippet has no `<a`, and is never longer than the snippet |
| `Anchor.SingleAnchorText` | src/index.js:52 | the anchor text of one well-formed `<a attrs>text</a>`, its attributes set off by a space, is its text |
| `Events.FirstSegment` | src/index.js:51-52 | `split("<br>")[0]` is a prefix of the description with no `<br>` in it. It equals the whole description exactly when there is no `<br>`; otherwise a `<br>` starts right after it |
| `Events.FirstSegmentBeforeBreak` | src/index.js:51-52 | for `p` without `<br>`, the first segment of `p + "<br>" + rest` is `p`, whatever `rest` is |
| `Events.Segment` | src/index.js:51 | `description?.split("<br>")[0]` is absent exactly when the description is. Otherwise it is a prefix of the description with no `<br>` |
| `Events.RegistrationLink` | src/index.js:51-55 | the link is the anchor text of the first segment (or of `""` with no description) when that is non-empty, else the segment itself, possibly `""` |
| `Events.NoDescriptionNoLink` | src/index.js:51-55 | with no description the link is `""`, given that the anchor query finds nothing in an empty document |
| `Events.Extract` | src/index.js:49-58 | the title is the summary when it is a non-empty string, and `""` otherwise. The start date is the library's epoch seconds of the start value |
| `Events.StartValue` | src/index.js:50 | the start value is absent without a `start`. It is `dateTime` whenever that is a non-empty string, and `date` only otherwise |
| `Events.ExtractIgnoresTextAfterBreak` | src/index.js:49-58 | editing the description after its first `<br>` leaves the whole extracted record unchanged |
| `Formatter.TournamentLine` | src/index.js:118-120 | a line starts with `> - [<t:` and ends with `>)`. Its length is the three field lengths plus the fixed text |
| `Formatter.ParseTournamentLine` | src/index.js:119 | the template is invertible: a start date without `:` and a link without `<` are read back from the line, together with the title |
| `Formatter.LineNewlineFree` | src/index.js:119 | a line has no newline exactly when none of its three fields has one |
| `Formatter.Records` | src/index.js:164 | `events.map(extractTournamentInfo)` has one record per event, record i coming from event i |
| `Formatter.Lines` | src/index.js:164 | `map(tournamentLine)` has one line per record, in order |
| `Formatter.Message` | src/index.js:158-165 | the message is `No tournaments found!` exactly when there are no events. Otherwise it starts with the tournament line of the first event |
| `Formatter.MessageLines` | src/index.js:163-164 | if no field holds a newline, the message splits on newlines into exactly one line per event, line i being the line of event i |
| `TimeWindow.AddDays` | src/index.js:149 | moving a UTC instant by n calendar days, keeping the time of day, adds exactly n times 86 400 000 ms. The day number moves by n and the time of day is unchanged |
| `TimeWindow.QueryWindow` | src/index.js:143-149 | `timeMin` is now, `timeMax` is now plus one day, so `timeMin < timeMax` |
| `TimeWindow.DailyRunsCoverEachInstantOnce` | src/index.js:143-149 | when the bot runs once a day, every instant of the first k days lies in the window of exactly one of the first k runs: the rolling windows leave no gap and do not overlap |
| `Config.Requirements` | src/index.js:123-141 | five settings are required, all met exactly when each is set and non-empty; the last two report the same message `WEBHOOK_URL must be set` |
| `Config.Validate` | src/index.js:123-141 | start-up passes exactly when PRIVATE_KEY, SERVICE_ACCOUNT, CALENDAR_ID, WEBHOOK_URL and AVATAR_URL are all set and non-empty |
| `Config.FirstUnmet` | src/index.js:123-141 | an ordered list of requirements passes exactly when all are met. Otherwise the error is that of the first unmet one |
| `Config.ValidateChecksInOrder` | src/index.js:123-141 | the checks are those five settings in that order, the first missing one deciding the error |
| `Config.ErrorMessages` | src/index.js:123-141 | each error message occurs exactly when its setting is the first missing one. A missing AVATAR_URL gives `WEBHOOK_URL must be set`, as written |
| `Config.UsernameNotRequired` | src/index.js:36 | USERNAME never changes the outcome of the checks |
| `Pipeline.Run` | src/index.js:122-171 | a failed check aborts with its message. A message is sent only after a successful check and a successful fetch. The query carries the private key, the service account and the calendar id of the settings; its timeMin is now and its timeMax is now plus one day. The content is the message built from the fetched events |
| `Pipeline.SettingsCheckedBeforeFetching` | src/index.js:122-144 | when a setting is missing, the calendar's answer makes no difference: the run stops before fetching |
| `Pipeline.RunSendsMessageOfFetchedEvents` | src/index.js:143-165 | with valid settings and a successful fetch for the configured credentials, calendar and window, the run sends to the configured webhook, avatar and user name. It sends the message of exactly the fetched events, which is the sentinel exactly when there are none |
| `Pipeline.FetchFailureAborts` | src/index.js:144-171 | a failing calendar call ends the run with its error and nothing is sent |
| `Scenarios.AnchorSegmentGivesCaption` | src/index.js:51-55 | a description whose first segment is one well-formed anchor (attributes set off by a space) links to the anchor's text, or to the raw segment when the text is empty |
| `Scenarios.LinkedEventRecord` | src/index.js:49-58 | `<a href="https://x/y">Sign up</a><br>extra` gives the link `Sign up`, and the record carries the summary as its title |
| `Scenarios.PlainDescriptionGivesSegment` | src/index.js:51-55 | `https://x/y<br>extra`, which has no markup, gives the link `https://x/y` |
| `Scenarios.UnlinkedEventRecord` | src/index.js:49-58 | an event without a description gets the link `""` |
| `Scenarios.TwoEventsTwoLines` | src/index.js:158-164 | two events, one linked and one without a description, give exactly two message lines in event order, the second linking to `""` |

## Left out

- `listEvents` (src/index.js:93-116) is a network call: the Google JWT
  sign-in and the Calendar API request. It is the `fetch` parameter of
  `Pipeline.Run`. The unescaping of `\n` in the private key (src/index.js:102)
  happens inside that sign-in and is not modelled.
- The webhook POST (src/index.js:68-85) is a network call. The model's run
  ends with the `Delivery` it would send. Delivery failures are not
  modelled. Neither is the fact that `send` is not awaited (src/index.js:159,
  163), which is promise scheduling.
- Reading `process.env` (src/index.js:15-42), `console.error` and
  `process.exit(1)` (src/index.js:168-171) are process plumbing. The settings
  are a `Config.Settings` value, and an aborted run is the `Aborted` outcome.
- cheerio's HTML parsing is a foreign library. It is the `anchorText` field
  of `Events.Libraries`. `Anchor.AnchorText` is narrow: it matches the
  literal `<a` (so an `<abbr>` opens an anchor too), ignores upper-case tags,
  keeps nested tags and entity references as raw text, and stops at an `<a`
  with no `>`. It also ends the opening tag at the first `>`, even one inside
  a quoted attribute value: `<a t=">">x</a>` gives `">x`, where cheerio
  gives `x`.
- dayjs's parsing of the start value and `.unix()` are a foreign library.
  They are the `unixSeconds` field of `Events.Libraries`. Among other things,
  the model does not capture that `dayjs(undefined)` is the current time, or
  that `dayjs("")` gives `NaN`. The clock (`dayjs().utc()`) is the `now`
  parameter, in milliseconds. `toISOString` formatting of the window is not
  modelled: a query holds the instants as integers.
- The 2000-character limit on Discord messages (src/index.js:74) is not
  enforced by the code, so there is nothing to model.
- The Calendar API could omit `items`, which would make `events.length`
  throw. The model's fetch always returns a sequence of events.
- Field values other than strings or absent (for example `null`) are treated
  as absent.
- `Formatter.MessageLines` and `Text.SplitJoin` need fields without
  newlines. With a newline in a title, the message has more lines than
  events, exactly as in the source.
