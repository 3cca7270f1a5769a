/** One run of `main`: check the settings, query the calendar for the next
    day, build the message and hand it to the Discord webhook. The calendar
    call is a parameter of the run and the webhook call is its result, so
    the run itself is a function. */
module Pipeline {
  import opened Js
  import opened Events
  import opened Formatter
  import opened TimeWindow
  import opened Config

  /** The arguments of the calendar query (`listEvents`): the credentials
      of the service account, the calendar and the window. */
  datatype Query = Query(privateKey: string, serviceAccount: string, calendarId: string, timeMin: int, timeMax: int)

  /** The query a run with these settings makes at instant `now`. */
  function QueryFor(settings: Settings, now: int): Query
    requires Validate(settings).Pass?
  {
    Query(settings.privateKey.value, settings.serviceAccount.value, settings.calendarId.value, now, now + MillisPerDay)
  }

  /** The body of the webhook request: the target URL, the avatar and user
      name overrides and the message content. */
  datatype Delivery = Delivery(url: string, avatarUrl: string, username: Option<string>, content: string)

  /** A run either stops with an error (reported and exit status 1) or
      sends one message. */
  datatype Outcome = Aborted(reason: string) | Delivered(query: Query, delivery: Delivery)

  /** The calendar API: the events of a query in ascending start order, or
      the error it throws. */
  type Fetch = Query -> Result<seq<RawEvent>, string>

  /** `main()`, with its rejection handler at the end of src/index.js. */
  function Run(settings: Settings, now: int, fetch: Fetch, libs: Libraries): (o: Outcome)
    ensures Validate(settings).Fail? ==> o == Aborted(Validate(settings).message)
    ensures o.Delivered? ==> Validate(settings).Pass? && fetch(o.query).Ok?
    ensures o.Delivered? ==> o.query == QueryFor(settings, now)
    ensures o.Delivered? ==> o.delivery.content == Message(fetch(o.query).value, libs)
  {
    match Validate(settings)
    case Fail(message) => Aborted(message)
    case Pass =>
      var window := QueryWindow(now);
      var query := Query(settings.privateKey.value, settings.serviceAccount.value,
        settings.calendarId.value, window.timeMin, window.timeMax);
      match fetch(query)
      case Err(error) => Aborted(error)
      case Ok(events) =>
        Delivered(query, Delivery(
          url := settings.webhookUrl.value,
          avatarUrl := settings.avatarUrl.value,
          username := settings.username,
          content := Message(events, libs)))
  }

  /** The settings are checked before any calendar call: with a missing
      setting, what the calendar would answer makes no difference. */
  lemma SettingsCheckedBeforeFetching(settings: Settings, now: int, fetch1: Fetch, fetch2: Fetch, libs: Libraries)
    requires Validate(settings).Fail?
    ensures Run(settings, now, fetch1, libs) == Run(settings, now, fetch2, libs)
  {
  }

  /** With valid settings, the run sends to the configured webhook the
      message for exactly the events the calendar returned for the next day
      of the configured calendar; it sends "No tournaments found!" when
      there are none. */
  lemma RunSendsMessageOfFetchedEvents(settings: Settings, now: int, fetch: Fetch, libs: Libraries, events: seq<RawEvent>)
    requires Validate(settings).Pass?
    requires fetch(QueryFor(settings, now)) == Ok(events)
    ensures var o := Run(settings, now, fetch, libs);
      && o.Delivered?
      && o.query == QueryFor(settings, now)
      && o.delivery.url == settings.webhookUrl.value
      && o.delivery.avatarUrl == settings.avatarUrl.value
      && o.delivery.username == settings.username
      && o.delivery.content == Message(events, libs)
      && (o.delivery.content == NoTournaments <==> |events| == 0)
  {
  }

  /** A failed calendar call ends the run with its error; nothing is sent. */
  lemma FetchFailureAborts(settings: Settings, now: int, fetch: Fetch, libs: Libraries, error: string)
    requires Validate(settings).Pass?
    requires fetch(QueryFor(settings, now)) == Err(error)
    ensures Run(settings, now, fetch, libs) == Aborted(error)
  {
  }
}
