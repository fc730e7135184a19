/**
 The request bodies `GoogleCalendarClient` in utils/google_calendar_client.py
 builds before it calls the Calendar API: the reminder list of
 `create_reminder_settings`, the event body of `create_event`, and the
 message `create_event` returns. Date-times arrive already rendered as
 ISO-8601 text; the link in the message is the API reply's `htmlLink`,
 passed in.
 */
module Calendar {
  import opened Common

  /** The time zone every event is created in. */
  const Utc := "UTC"
  /** The prefix of the message `create_event` returns. */
  const CreatedPrefix := "Event created: "
  /** How Python renders a missing link inside an f-string. */
  const NoneText := "None"
  /** The email lead time `create_reminder_settings` defaults to, in minutes. */
  const DefaultEmailMinutes := 10

  /** The reminder `method` values: 'email' and 'popup'. */
  datatype ReminderKind = Email | Popup

  datatype Reminder = Reminder(kind: ReminderKind, minutes: int)

  /** `create_reminder_settings`: an email reminder when its minutes are
      given, then a popup reminder when its minutes are given. */
  function ReminderSettings(emailMinutes: Option<int>, popupMinutes: Option<int>): (r: seq<Reminder>)
    ensures |r| <= 2
    ensures (exists i :: 0 <= i < |r| && r[i].kind == Email) <==> emailMinutes.Some?
    ensures (exists i :: 0 <= i < |r| && r[i].kind == Popup) <==> popupMinutes.Some?
    ensures forall i :: 0 <= i < |r| && r[i].kind == Email ==> i == 0 && r[i].minutes == emailMinutes.value
    ensures forall i :: 0 <= i < |r| && r[i].kind == Popup ==> i == |r| - 1 && r[i].minutes == popupMinutes.value
  {
    var r := (if emailMinutes.Some? then [Reminder(Email, emailMinutes.value)] else [])
      + (if popupMinutes.Some? then [Reminder(Popup, popupMinutes.value)] else []);
    assert emailMinutes.Some? ==> r[0].kind == Email;
    assert popupMinutes.Some? ==> r[|r| - 1].kind == Popup;
    r
  }

  /** With its default arguments the builder asks for one email ten minutes ahead. */
  lemma DefaultReminderSettings()
    ensures ReminderSettings(Some(DefaultEmailMinutes), None) == [Reminder(Email, 10)]
  {
  }

  /** A `start` or `end` entry. */
  datatype When = When(dateTime: string, timeZone: string)

  datatype Attendee = Attendee(email: string)

  /** The `reminders` entry: the calendar's default reminders, or exactly
      the listed overrides. */
  datatype ReminderBlock = UseDefault | Overrides(overrides: seq<Reminder>)

  /** The event body; `attendees` is `None` when the key is absent. */
  datatype EventBody = EventBody(summary: string, description: string, start: When, end: When,
                                 attendees: Option<seq<Attendee>>, reminders: ReminderBlock)

  /** Python truthiness of an optional list: `None` and `[]` are falsy. */
  predicate Given<T>(xs: Option<seq<T>>) {
    xs.Some? && |xs.value| > 0
  }

  /** The body `create_event` sends: the times in UTC, an attendee entry
      per address when any are given, and the given reminders as overrides
      or the calendar defaults when none are given. */
  function EventBodyFor(summary: string, description: string, start: string, end: string,
                        attendees: Option<seq<string>>, reminders: Option<seq<Reminder>>): (b: EventBody)
    ensures b.summary == summary && b.description == description
    ensures b.start == When(start, Utc) && b.end == When(end, Utc)
    ensures b.attendees.Some? <==> Given(attendees)
    ensures b.attendees.Some? ==>
      && |b.attendees.value| == |attendees.value|
      && forall i :: 0 <= i < |attendees.value| ==> b.attendees.value[i].email == attendees.value[i]
    ensures b.reminders.UseDefault? <==> !Given(reminders)
    ensures b.reminders.Overrides? ==> b.reminders.overrides == reminders.value
  {
    EventBody(summary, description, When(start, Utc), When(end, Utc),
              if Given(attendees) then Some(seq(|attendees.value|, i requires 0 <= i < |attendees.value| => Attendee(attendees.value[i])))
              else None,
              if Given(reminders) then Overrides(reminders.value) else UseDefault)
  }

  /** The addresses the body invites. */
  function Invited(b: EventBody): seq<string> {
    if b.attendees.Some? then seq(|b.attendees.value|, i requires 0 <= i < |b.attendees.value| => b.attendees.value[i].email)
    else []
  }

  /** The body invites exactly the given addresses, in the given order. */
  lemma InvitedRoundTrip(summary: string, description: string, start: string, end: string,
                         attendees: Option<seq<string>>, reminders: Option<seq<Reminder>>)
    ensures Invited(EventBodyFor(summary, description, start, end, attendees, reminders))
         == (if attendees.Some? then attendees.value else [])
  {
  }

  /** Reminders built by `create_reminder_settings` become the body's
      overrides unless both lead times are `None`, which leaves the
      calendar defaults in force. */
  lemma SettingsInBody(summary: string, description: string, start: string, end: string,
                       attendees: Option<seq<string>>, emailMinutes: Option<int>, popupMinutes: Option<int>)
    ensures var b := EventBodyFor(summary, description, start, end, attendees,
                                  Some(ReminderSettings(emailMinutes, popupMinutes)));
      && (b.reminders.UseDefault? <==> emailMinutes.None? && popupMinutes.None?)
      && (b.reminders.Overrides? ==> b.reminders.overrides == ReminderSettings(emailMinutes, popupMinutes))
  {
  }

  /** The string `create_event` returns. */
  function CreatedMessage(htmlLink: Option<string>): (s: string)
    ensures |s| >= |CreatedPrefix| && s[..|CreatedPrefix|] == CreatedPrefix
    ensures htmlLink.Some? ==> s[|CreatedPrefix|..] == htmlLink.value
    ensures htmlLink.None? ==> s[|CreatedPrefix|..] == NoneText
  {
    CreatedPrefix + (if htmlLink.Some? then htmlLink.value else NoneText)
  }
}
