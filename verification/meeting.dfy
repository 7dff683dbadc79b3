/** Video meetings (`MeetingService`): a Jitsi room named after the title,
    a calendar event whose location is the room's address, and one
    invitation letter per attendee. The random UUIDs, the clock's text
    forms and the mailer are parameters. */
module Meeting {
  import opened Wrappers
  import opened JavaString
  import opened Decimal
  import CalendarEvents

  // ------------------------------------------------------------ room id

  /** `replaceAll("[^a-zA-Z0-9]", "")`. */
  function KeepAlnum(s: string): (r: string)
    ensures forall k :: 0 <= k < |r| ==> IsAsciiAlnum(r[k])
    ensures (forall k :: 0 <= k < |s| ==> IsAsciiAlnum(s[k])) ==> r == s
    ensures |r| <= |s|
  {
    if s == [] then [] else (if IsAsciiAlnum(s[0]) then [s[0]] else []) + KeepAlnum(s[1..])
  }

  predicate IsLowerHex(c: char) {
    IsAsciiDigit(c) || 'a' <= c <= 'f'
  }

  /** The text of `UUID.randomUUID()`: 36 characters, the first eight of
      them lower-case hexadecimal digits. */
  type UuidText = s: string | |s| == 36 && forall k :: 0 <= k < 8 ==> IsLowerHex(s[k])
    witness "00000000-0000-0000-0000-000000000000"

  /** `generateJitsiRoomId`: the title's letters and digits, lower-cased,
      then "-" and the first eight characters of the UUID. */
  function RoomId(title: string, uuid: UuidText): (r: string)
    ensures |r| == |KeepAlnum(title)| + 9
    ensures r[|r| - 9] == '-' && r[|r| - 8..] == uuid[..8]
    ensures forall k :: 0 <= k < |r| - 9 ==> IsAsciiLower(r[k]) || IsAsciiDigit(r[k])
  {
    var kept := KeepAlnum(title);
    ToLower(kept) + "-" + uuid[..8]
  }

  /** The room id splits back at its only hyphen into the filtered title
      and the UUID's first eight characters. */
  lemma {:induction false} RoomIdSplits(title: string, uuid: UuidText)
    ensures var r := RoomId(title, uuid);
      var i := LastIndexOfChar(r, '-');
      && i == |r| - 9
      && (forall k :: 0 <= k < i ==> r[k] != '-')
      && r[..i] == ToLower(KeepAlnum(title)) && r[i + 1..] == uuid[..8]
  {
    var r := RoomId(title, uuid);
    var i := LastIndexOfChar(r, '-');
    assert forall k :: |r| - 8 <= k < |r| ==> r[k] == uuid[k - (|r| - 8)];
    assert forall k :: |r| - 8 <= k < |r| ==> r[k] != '-';
    assert r[..|r| - 9] == ToLower(KeepAlnum(title));
  }

  /** A title of lower-case letters and digits is the room id's first
      part as it stands. */
  lemma {:induction false} RoomIdOfPlainTitle(title: string, uuid: UuidText)
    requires forall k :: 0 <= k < |title| ==> IsAsciiLower(title[k]) || IsAsciiDigit(title[k])
    ensures RoomId(title, uuid) == title + "-" + uuid[..8]
  {
    assert KeepAlnum(title) == title;
    assert ToLower(title) == title by {
      assert forall k :: 0 <= k < |title| ==> ToLower(title)[k] == title[k];
    }
  }

  /** The address of a room: `jitsiBaseUrl + "/" + roomId`. */
  function MeetingUrl(jitsiBase: string, roomId: string): string {
    jitsiBase + "/" + roomId
  }

  /** `generateJitsiLink`. */
  function JitsiLink(jitsiBase: string, roomName: string, uuid: UuidText): (r: string)
    ensures StartsWith(r, jitsiBase + "/")
    ensures |r| == |jitsiBase| + |KeepAlnum(roomName)| + 10
  {
    MeetingUrl(jitsiBase, RoomId(roomName, uuid))
  }

  // ------------------------------------------------------------ texts

  predicate HasText(description: Option<string>) {
    description.Some? && description.value != []
  }

  const LinkCaption := "Ссылка на видеовстречу: "

  function LinkLine(url: string): string {
    LinkCaption + url
  }

  /** The event description: the given one, a blank line and the link
      line; or the link line alone for a missing or empty description. */
  function EventDescription(description: Option<string>, url: string): (r: string)
    ensures |LinkLine(url)| <= |r| && r[|r| - |LinkLine(url)|..] == LinkLine(url)
    ensures HasText(description) <==> r != LinkLine(url)
    ensures HasText(description) ==> StartsWith(r, description.value + "\n\n")
  {
    if HasText(description) then description.value + "\n\n" + LinkLine(url) else LinkLine(url)
  }

  /** The event description carries the meeting address. */
  lemma {:induction false} EventDescriptionCarriesLink(description: Option<string>, url: string)
    ensures Contains(EventDescription(description, url), url)
  {
    var r, l := EventDescription(description, url), LinkLine(url);
    var caption := LinkCaption;
    assert OccursAt(l, url, |caption|) by {
      assert l[|caption|..|caption| + |url|] == url;
    }
    ContainsWitness(l, url, |caption|);
    if HasText(description) {
      assert r == (description.value + "\n\n") + l;
      ContainsConcat(l, description.value + "\n\n", url);
    }
  }

  /** `buildMeetingInvitationBody`, line by line; `when` is the start time
      as "dd.MM.yyyy HH:mm". */
  function InvitationLines(title: string, when: string, durationMinutes: int, url: string,
                           description: Option<string>): (r: seq<string>)
    ensures |r| == 14
  {
    [InvitedTo + title, "",
     TimeCaption + when,
     LengthCaption + IntToDecimal(durationMinutes) + Minutes, "",
     RoomCaption + url, "",
     if HasText(description) then AboutCaption + description.value else "", "",
     NoteLine,
     NoSignUpLine, "",
     RegardsLine,
     SignatureLine]
  }

  const InvitedTo := "Вы приглашены на встречу: "
  const TimeCaption := "Время: "
  const LengthCaption := "Длительность: "
  const Minutes := " минут"
  const RoomCaption := "Ссылка на видеовстречу (Jitsi Meet): "
  const AboutCaption := "Описание: "
  const NoteLine := "Примечание: Для участия в видеовстрече просто перейдите по ссылке."
  const NoSignUpLine := "Регистрация не требуется."
  const RegardsLine := "С уважением,"
  const SignatureLine := "Business Assistant"

  function InvitationBody(title: string, when: string, durationMinutes: int, url: string,
                          description: Option<string>): string {
    TextBlock(InvitationLines(title, when, durationMinutes, url, description))
  }

  /** The invitation names the meeting, its time and its address, and the
      description when there is one. */
  lemma {:induction false} InvitationCarriesMeeting(title: string, when: string, durationMinutes: int, url: string,
                                 description: Option<string>)
    ensures var body := InvitationBody(title, when, durationMinutes, url, description);
      && StartsWith(body, InvitedTo + title + "\n")
      && Contains(body, when) && Contains(body, url)
      && (HasText(description) ==> Contains(body, description.value))
  {
    var lines := InvitationLines(title, when, durationMinutes, url, description);
    LinesShowMeeting(lines, title, when, url, description);
  }

  lemma {:induction false} LinesShowMeeting(lines: seq<string>, title: string, when: string, url: string,
                                            description: Option<string>)
    requires |lines| == 14 && lines[0] == InvitedTo + title
    requires lines[2] == TimeCaption + when && lines[5] == RoomCaption + url
    requires HasText(description) ==> lines[7] == AboutCaption + description.value
    ensures var body := TextBlock(lines);
      && StartsWith(body, InvitedTo + title + "\n")
      && Contains(body, when) && Contains(body, url)
      && (HasText(description) ==> Contains(body, description.value))
  {
    LineShows(lines, 2, TimeCaption, when);
    LineShows(lines, 5, RoomCaption, url);
    if HasText(description) {
      LineShows(lines, 7, AboutCaption, description.value);
    }
  }

  function InvitationSubject(title: string): string {
    "Приглашение на встречу: " + title
  }

  // ------------------------------------------------------------ sending

  /** One attempt of `sendMeetingInvitations`: to whom, what, and the
      failure the mailer raised, which is only logged. */
  datatype Invitation = Invitation(to: string, subject: string, body: string, failure: Option<string>)

  /** `sendMeetingInvitations`: one letter per attendee, in order; a
      failed letter does not stop the rest. */
  method SendInvitations(send: (string, string, string) -> Option<string>, attendees: seq<string>,
                         subject: string, body: string) returns (sent: seq<Invitation>)
    ensures |sent| == |attendees|
    ensures forall k :: 0 <= k < |sent| ==>
      sent[k] == Invitation(attendees[k], subject, body, send(attendees[k], subject, body))
  {
    sent := [];
    var i := 0;
    while i < |attendees|
      invariant 0 <= i <= |attendees|
      invariant |sent| == i
      invariant forall k :: 0 <= k < i ==>
        sent[k] == Invitation(attendees[k], subject, body, send(attendees[k], subject, body))
    {
      var attendee := attendees[i];
      var failure := send(attendee, subject, body);
      sent := sent + [Invitation(attendee, subject, body, failure)];
      i := i + 1;
    }
  }

  // ------------------------------------------------------------ scheduling

  /** `MeetingResponse`. */
  datatype MeetingResponse = MeetingResponse(
    status: string, roomId: string, meetingUrl: string, startTime: string, attendees: seq<string>)

  /** The clock's two text forms: `toString` and "dd.MM.yyyy HH:mm". */
  datatype Clock = Clock(iso: int -> string, display: int -> string)

  /** What a scheduled meeting leaves behind. */
  datatype Scheduled = Scheduled(
    response: MeetingResponse, event: CalendarEvents.EventResponse,
    deliveries: seq<CalendarEvents.Delivery>, invitations: seq<Invitation>)

  const MeetingFailure := "Не удалось создать встречу: "

  /** The event request `scheduleMeeting` hands to the calendar: the link
      in the description and as the location. */
  function EventRequestFor(title: string, startTime: int, durationMinutes: int, attendees: seq<string>,
                           description: Option<string>, url: string): (req: CalendarEvents.EventRequest)
    ensures req.title == title && req.startTime == startTime && req.durationMinutes == durationMinutes
    ensures req.attendees == attendees && req.location == Some(url)
    ensures req.description.Some? && Contains(req.description.value, url)
  {
    EventDescriptionCarriesLink(description, url);
    CalendarEvents.EventRequest(title, startTime, durationMinutes, Some(EventDescription(description, url)),
                                attendees, Some(url))
  }

  /** `scheduleMeeting`: fails, with the calendar's message behind
      `MeetingFailure`, exactly when the organizer is not a stored user;
      otherwise the event is written and every attendee is invited. */
  method ScheduleMeeting(jitsiBase: string, users: map<string, CalendarEvents.User>, s: CalendarEvents.Setting,
                         clock: Clock, send: (string, string, string) -> Option<string>,
                         roomUuid: UuidText, eventId: string, title: string, startTime: int, durationMinutes: int,
                         attendees: seq<string>, description: Option<string>, organizer: string)
    returns (r: Result<Scheduled, string>)
    ensures r.Err? <==> organizer !in users
    ensures r.Err? ==> r.error == MeetingFailure + CalendarEvents.NoOrganizer(organizer)
    ensures r.Ok? ==>
      var m := r.value;
      && m.response.status == "success"
      && m.response.roomId == RoomId(title, roomUuid)
      && m.response.meetingUrl == JitsiLink(jitsiBase, title, roomUuid)
      && m.response.startTime == clock.iso(startTime)
      && m.response.attendees == attendees
      && m.event.location == Some(m.response.meetingUrl)
      && m.event.endTime == startTime + 60 * durationMinutes
      && |m.invitations| == |attendees|
      && forall k :: 0 <= k < |attendees| ==>
           && m.invitations[k].to == attendees[k]
           && m.invitations[k].subject == InvitationSubject(title)
           && m.invitations[k].body == InvitationBody(title, clock.display(startTime), durationMinutes,
                                                      m.response.meetingUrl, description)
  {
    var roomId := RoomId(title, roomUuid);
    var url := MeetingUrl(jitsiBase, roomId);
    var req := EventRequestFor(title, startTime, durationMinutes, attendees, description, url);
    var created := CalendarEvents.CreateEvent(users, s, req, organizer, eventId);
    if created.Err? {
      return Err(MeetingFailure + created.error);
    }
    var (event, deliveries) := created.value;
    var body := InvitationBody(title, clock.display(startTime), durationMinutes, url, description);
    var invitations := SendInvitations(send, attendees, InvitationSubject(title), body);
    var response := MeetingResponse("success", roomId, url, clock.iso(startTime), attendees);
    return Ok(Scheduled(response, event, deliveries, invitations));
  }
}
