/** The start-up check of the required settings in `main`. Each setting is
    an environment variable, so it may be unset; JavaScript's `!` treats an
    unset variable and an empty one alike. */
module Config {
  import opened Js

  /** The settings the bot reads from its environment. */
  datatype Settings = Settings(
    privateKey: Option<string>,
    serviceAccount: Option<string>,
    calendarId: Option<string>,
    webhookUrl: Option<string>,
    username: Option<string>,
    avatarUrl: Option<string>)

  /** Whether start-up may go on, or the message of the error it throws. */
  datatype Check = Pass | Fail(message: string)

  const PrivateKeyUnset := "PRIVATE_KEY must be set"
  const ServiceAccountUnset := "SERVICE_ACCOUNT must be set"
  const CalendarIdUnset := "CALENDAR_ID must be set"
  const WebhookUrlUnset := "WEBHOOK_URL must be set"

  /** The chain of `if (!X) throw new Error(...)` in `main`. The check of
      AVATAR_URL throws the message of WEBHOOK_URL, as the code is written. */
  function Validate(c: Settings): (r: Check)
    ensures r.Pass? <==>
      Truthy(c.privateKey) && Truthy(c.serviceAccount) && Truthy(c.calendarId)
      && Truthy(c.webhookUrl) && Truthy(c.avatarUrl)
  {
    if !Truthy(c.privateKey) then Fail(PrivateKeyUnset)
    else if !Truthy(c.serviceAccount) then Fail(ServiceAccountUnset)
    else if !Truthy(c.calendarId) then Fail(CalendarIdUnset)
    else if !Truthy(c.webhookUrl) then Fail(WebhookUrlUnset)
    else if !Truthy(c.avatarUrl) then Fail(WebhookUrlUnset)
    else Pass
  }

  /** A required setting and the error reported when it is missing. */
  datatype Requirement = Requirement(value: Option<string>, message: string)

  /** The required settings in the order `main` checks them: all five are
      met exactly when each of them is set and non-empty, and the last two
      report the same message. */
  function Requirements(c: Settings): (reqs: seq<Requirement>)
    ensures |reqs| == 5
    ensures (forall i :: 0 <= i < |reqs| ==> Truthy(reqs[i].value))
        <==> Truthy(c.privateKey) && Truthy(c.serviceAccount) && Truthy(c.calendarId)
             && Truthy(c.webhookUrl) && Truthy(c.avatarUrl)
    ensures reqs[3].message == reqs[4].message == WebhookUrlUnset
  {
    var reqs := [ Requirement(c.privateKey, PrivateKeyUnset),
      Requirement(c.serviceAccount, ServiceAccountUnset),
      Requirement(c.calendarId, CalendarIdUnset),
      Requirement(c.webhookUrl, WebhookUrlUnset),
      Requirement(c.avatarUrl, WebhookUrlUnset) ];
    assert reqs[0].value == c.privateKey && reqs[1].value == c.serviceAccount
      && reqs[2].value == c.calendarId && reqs[3].value == c.webhookUrl && reqs[4].value == c.avatarUrl;
    reqs
  }

  /** Checks requirements in order: the first one that is not met decides. */
  function FirstUnmet(reqs: seq<Requirement>): (r: Check)
    ensures r.Pass? <==> forall i :: 0 <= i < |reqs| ==> Truthy(reqs[i].value)
    ensures r.Fail? ==>
      exists i :: (0 <= i < |reqs| && !Truthy(reqs[i].value)
        && r.message == reqs[i].message
        && forall j :: 0 <= j < i ==> Truthy(reqs[j].value))
  {
    if |reqs| == 0 then Pass
    else if !Truthy(reqs[0].value) then Fail(reqs[0].message)
    else
      var r := FirstUnmet(reqs[1..]);
      assert forall i :: 1 <= i < |reqs| ==> reqs[i] == reqs[1..][i - 1];
      r
  }

  /** `main` checks exactly the five required settings, in order, and the
      first missing one decides the error. */
  lemma ValidateChecksInOrder(c: Settings)
    ensures Validate(c) == FirstUnmet(Requirements(c))
  {
    var reqs := Requirements(c);
    assert FirstUnmet(reqs[5..]) == Pass;
    assert FirstUnmet(reqs[4..]) == if !Truthy(c.avatarUrl) then Fail(WebhookUrlUnset) else Pass;
    assert FirstUnmet(reqs[3..])
      == if !Truthy(c.webhookUrl) then Fail(WebhookUrlUnset) else FirstUnmet(reqs[4..]);
    assert FirstUnmet(reqs[2..])
      == if !Truthy(c.calendarId) then Fail(CalendarIdUnset) else FirstUnmet(reqs[3..]);
    assert FirstUnmet(reqs[1..])
      == if !Truthy(c.serviceAccount) then Fail(ServiceAccountUnset) else FirstUnmet(reqs[2..]);
  }

  /** Each error names the first missing setting, except that a missing
      AVATAR_URL is reported with the WEBHOOK_URL message. */
  lemma ErrorMessages(c: Settings)
    ensures Validate(c) == Fail(PrivateKeyUnset) <==> !Truthy(c.privateKey)
    ensures Validate(c) == Fail(ServiceAccountUnset)
      <==> Truthy(c.privateKey) && !Truthy(c.serviceAccount)
    ensures Validate(c) == Fail(CalendarIdUnset)
      <==> Truthy(c.privateKey) && Truthy(c.serviceAccount) && !Truthy(c.calendarId)
    ensures Validate(c) == Fail(WebhookUrlUnset)
      <==> Truthy(c.privateKey) && Truthy(c.serviceAccount) && Truthy(c.calendarId)
           && (!Truthy(c.webhookUrl) || !Truthy(c.avatarUrl))
  {
    assert PrivateKeyUnset[0] == 'P' && ServiceAccountUnset[0] == 'S';
    assert CalendarIdUnset[0] == 'C' && WebhookUrlUnset[0] == 'W';
  }

  /** USERNAME is optional: its value never changes the outcome. */
  lemma UsernameNotRequired(c: Settings, username: Option<string>)
    ensures Validate(c.(username := username)) == Validate(c)
  {
  }
}
