/** Writing an event into every known attendee's calendar with CalDAV PUT
    (`CalendarService.createEvent` and `createEventInCalendar`). The HTTP
    exchange is replaced by the replies the server gives, one per PUT;
    a reply of 404 makes the service provision the calendar and try again,
    so a script of replies also bounds that retry. */
module CalendarEvents {
  import opened Wrappers
  import opened JavaString
  import opened Decimal
  import ICalendar
  import CalendarName
  import Provisioning

  /** The parts of a stored user the service reads. */
  datatype User = User(email: string, firstName: Option<string>, calendarPassword: Option<string>)

  /** `CreateEventRequest`; times are seconds on an opaque clock. */
  datatype EventRequest = EventRequest(
    title: string, startTime: int, durationMinutes: int,
    description: Option<string>, attendees: seq<string>, location: Option<string>)

  /** `EventResponse`. */
  datatype EventResponse = EventResponse(
    eventId: string, title: string, startTime: int, endTime: int,
    description: Option<string>, attendees: seq<string>, location: Option<string>,
    calendarUrl: Option<string>)

  // ------------------------------------------------------------ messages

  const CalDavFailure := "Не удалось создать событие через CalDAV: "

  function NoPassword(email: string): string {
    "У пользователя " + email + " не настроен пароль календаря"
  }

  function NotProvisioned(email: string, url: string, message: string): string {
    NotFound + " и не удалось создать его для пользователя " + email + ". URL: " + url + ". Ошибка: " + message
  }

  const NotFound := "Календарь не найден"

  function NoOrganizer(email: string): string {
    "Организатор не найден: " + email
  }

  function AuthFailed(code: int): string {
    "Ошибка аутентификации при создании события в календаре: " + IntToDecimal(code)
  }

  function Rejected(code: int, body: string): string {
    "Не удалось создать событие в календаре: " + IntToDecimal(code) + " - " + body
  }

  // ------------------------------------------------------------ one PUT

  /** What one PUT gave: a status code with the lines of the error stream
      (`None` when it cannot be read), or an exception from the
      connection. */
  datatype PutReply = Status(code: int, errorLines: Option<seq<string>>) | Broken(message: string)

  /** How the event write ended. `Unfinished` means the replies ran out,
      which only happens while the server keeps answering 404. */
  datatype PutOutcome = Stored | PutFailed(message: string) | Unfinished

  /** `readErrorResponse`: the lines of the error stream run together, or a
      fixed text when the stream cannot be read. */
  function ErrorText(lines: Option<seq<string>>): (r: string)
    ensures lines.None? ==> r == "Не удалось прочитать ответ об ошибке"
    ensures lines.Some? ==> r == Join(lines.value, "")
  {
    match lines
    case None => "Не удалось прочитать ответ об ошибке"
    case Some(ls) => Join(ls, "")
  }

  predicate IsAccepted(code: int) {
    code == 201 || code == 204 || code == 409
  }

  predicate IsNotFound(reply: PutReply) {
    reply.Status? && reply.code == 404
  }

  /** The PUTs from `createEventInCalendar` once the password is known.
      After a 404 the calendar is provisioned, which never fails, and the
      write is repeated; any failure of the repeat is reported as a
      calendar that could not be created. Every failure raised inside the
      exchange is caught once more and prefixed. */
  function Put(email: string, url: string, replies: seq<PutReply>): (r: PutOutcome)
    decreases |replies|
  {
    if replies == [] then Unfinished
    else match replies[0]
      case Broken(m) => PutFailed(CalDavFailure + m)
      case Status(code, lines) =>
        if IsAccepted(code) then Stored
        else if code == 404 then
          match Put(email, url, replies[1..])
          case PutFailed(m) => PutFailed(CalDavFailure + NotProvisioned(email, url, m))
          case other => other
        else if code == 401 || code == 403 then PutFailed(CalDavFailure + AuthFailed(code))
        else PutFailed(CalDavFailure + Rejected(code, ErrorText(lines)))
  }

  /** The index of the first reply that is not a 404, or the number of
      replies when all are. */
  function FirstAnswer(replies: seq<PutReply>): (k: nat)
    ensures k <= |replies|
    ensures forall j :: 0 <= j < k ==> IsNotFound(replies[j])
    ensures k < |replies| ==> !IsNotFound(replies[k])
  {
    if replies == [] || !IsNotFound(replies[0]) then 0 else 1 + FirstAnswer(replies[1..])
  }

  /** The write is stored exactly when the first reply that is not a 404
      accepts it, and is unfinished exactly when every reply is a 404. */
  lemma {:induction false} PutDecidedByFirstAnswer(email: string, url: string, replies: seq<PutReply>)
    ensures var k := FirstAnswer(replies);
      && (Put(email, url, replies) == Stored <==> k < |replies| && replies[k].Status? && IsAccepted(replies[k].code))
      && (Put(email, url, replies) == Unfinished <==> k == |replies|)
    decreases |replies|
  {
    if replies != [] && IsNotFound(replies[0]) {
      PutDecidedByFirstAnswer(email, url, replies[1..]);
    }
  }

  /** Every failure carries the CalDAV prefix, and a failure after a 404
      says the calendar could not be created. */
  lemma {:induction false} PutFailurePrefix(email: string, url: string, replies: seq<PutReply>)
    ensures var r := Put(email, url, replies);
      r.PutFailed? ==> StartsWith(r.message, CalDavFailure)
    ensures var r := Put(email, url, replies);
      r.PutFailed? && IsNotFound(replies[0]) ==>
        StartsWith(r.message, CalDavFailure + NotFound)
    decreases |replies|
  {
    if replies != [] {
      var r := Put(email, url, replies);
      if IsNotFound(replies[0]) {
        PutFailurePrefix(email, url, replies[1..]);
        var inner := Put(email, url, replies[1..]);
        if inner.PutFailed? {
          assert r == PutFailed(CalDavFailure + NotProvisioned(email, url, inner.message));
          NotProvisionedStarts(email, url, inner.message);
        }
      } else if r.PutFailed? {
        assert StartsWith(r.message, CalDavFailure) by {
          PrefixedStarts(CalDavFailure, r.message[|CalDavFailure|..]);
        }
      }
    }
  }

  lemma {:induction false} PrefixedStarts(p: string, tail: string)
    ensures StartsWith(p + tail, p)
  {
    assert (p + tail)[..|p|] == p;
  }

  /** The wrapped message starts with both prefixes. */
  lemma {:induction false} NotProvisionedStarts(email: string, url: string, m: string)
    ensures StartsWith(CalDavFailure + NotProvisioned(email, url, m), CalDavFailure + NotFound)
    ensures StartsWith(CalDavFailure + NotProvisioned(email, url, m), CalDavFailure)
  {
    var n := NotProvisioned(email, url, m);
    var t := " и не удалось создать его для пользователя " + email + ". URL: " + url + ". Ошибка: " + m;
    assert n == NotFound + t;
    PrefixedStarts(NotFound, t);
    StartsWithBehind(CalDavFailure, n, NotFound);
    PrefixedStarts(CalDavFailure, n);
  }

  lemma {:induction false} StartsWithBehind(a: string, b: string, p: string)
    requires StartsWith(b, p)
    ensures StartsWith(a + b, a + p)
  {
    assert (a + b)[..|a + p|] == a + b[..|p|];
  }

  /** The message a rejected first answer produces, wrapped once for each
      404 before it. */
  function Wrapped(email: string, url: string, n: nat, m: string): string {
    if n == 0 then m else CalDavFailure + NotProvisioned(email, url, Wrapped(email, url, n - 1, m))
  }

  /** After k 404s the failure of the first real answer comes back
      wrapped k times; any other outcome comes back as is. */
  lemma {:induction false} PutFailureNesting(email: string, url: string, replies: seq<PutReply>)
    requires FirstAnswer(replies) < |replies|
    ensures var k := FirstAnswer(replies);
      Put(email, url, replies) == (match Put(email, url, replies[k..])
                                   case PutFailed(m) => PutFailed(Wrapped(email, url, k, m))
                                   case other => other)
    decreases |replies|
  {
    if IsNotFound(replies[0]) {
      PutFailureNesting(email, url, replies[1..]);
      assert replies[1..][FirstAnswer(replies[1..])..] == replies[FirstAnswer(replies)..];
    }
  }

  // ------------------------------------------------------------ the event URL

  /** `eventUrl`: the event's resource inside the user's calendar. */
  function EventUrl(base: Provisioning.BaseUrl, encode: string -> string, user: User, eventId: string): (r: string)
    ensures r == Provisioning.CollectionUrl(base, encode, user.email, CalendarName.ForUser(user.firstName)) + eventId + ".ics"
  {
    Provisioning.BaseText(base) + "/" + encode(user.email) + "/" + encode(CalendarName.ForUser(user.firstName)) + "/" + eventId + ".ics"
  }

  /** The event is written into the very collection `createCalendar`
      provisions for the same user. */
  lemma {:induction false} EventInProvisionedCollection(base: Provisioning.BaseUrl, encode: string -> string, user: User,
                                     eventId: string, reply: Provisioning.MkcolReply)
    ensures var account := Provisioning.CreateCalendar(user.email, user.firstName, reply);
      EventUrl(base, encode, user, eventId)
        == Provisioning.CollectionUrl(base, encode, account.username, account.calendarId) + eventId + ".ics"
  {
  }

  /** `createEventInCalendar`: a user without a calendar password fails
      before any request is made. */
  function WriteEvent(base: Provisioning.BaseUrl, encode: string -> string, user: User, eventId: string,
                      replies: seq<PutReply>): (r: PutOutcome)
    ensures user.calendarPassword.None? ==> r == PutFailed(NoPassword(user.email))
    ensures user.calendarPassword.Some? ==> r == Put(user.email, EventUrl(base, encode, user, eventId), replies)
  {
    if user.calendarPassword.None? then PutFailed(NoPassword(user.email))
    else Put(user.email, EventUrl(base, encode, user, eventId), replies)
  }

  // ------------------------------------------------------------ createEvent

  /** The write made for one attendee: where it went, what was sent and how
      it ended. Its outcome is only logged. */
  datatype Delivery = Delivery(attendee: string, url: string, content: string, outcome: PutOutcome)

  /** The attendees that are stored users, in request order. */
  function Known(users: map<string, User>, attendees: seq<string>): (r: seq<string>)
    ensures forall k :: 0 <= k < |r| ==> r[k] in users && r[k] in attendees
    ensures forall a :: a in attendees && a in users ==> a in r
    ensures |r| <= |attendees|
  {
    if attendees == [] then []
    else (if attendees[0] in users then [attendees[0]] else []) + Known(users, attendees[1..])
  }

  /** What the event writer needs besides the request: the CalDAV base
      URL, the form encoder, the stamp and times as formatted, and the
      replies the server gives to the PUTs for the attendee at each
      position of the list. */
  datatype Setting = Setting(
    base: Provisioning.BaseUrl, encode: string -> string,
    stamp: string, format: int -> string, server: nat -> seq<PutReply>)

  /** The end of the event: `plusMinutes(durationMinutes)`. */
  function EndTime(req: EventRequest): int {
    req.startTime + 60 * req.durationMinutes
  }

  /** The iCalendar event every attendee's calendar receives. */
  function EventOf(s: Setting, req: EventRequest, eventId: string, organizer: string): (e: ICalendar.Event)
    ensures e.id == eventId && e.organizer == organizer && e.attendees == req.attendees
    ensures e.title == Some(req.title) && e.description == req.description && e.location == req.location
  {
    ICalendar.Event(eventId, s.stamp, s.format(req.startTime), s.format(EndTime(req)),
                    Some(req.title), req.description, req.location, organizer, req.attendees)
  }

  /** The loop over the attendees still to visit, the first of them at
      position `pos` of the request: unknown addresses are skipped, and
      each known one is visited with its position, whatever became of the
      others. */
  function Targets(users: map<string, User>, attendees: seq<string>, pos: nat): (r: seq<(string, nat)>)
    ensures forall k :: 0 <= k < |r| ==> r[k].0 in users
  {
    if attendees == [] then []
    else (if attendees[0] in users then [(attendees[0], pos)] else []) + Targets(users, attendees[1..], pos + 1)
  }

  /** One write per visited attendee. */
  function Deliveries(users: map<string, User>, s: Setting, e: ICalendar.Event, attendees: seq<string>)
    : (r: seq<Delivery>)
  {
    var ts := Targets(users, attendees, 0);
    seq(|ts|, k requires 0 <= k < |ts| => DeliverTo(s, e, ts[k].0, users[ts[k].0], s.server(ts[k].1)))
  }

  /** The write of event `e` to the calendar of user `u`, address `a`. */
  function DeliverTo(s: Setting, e: ICalendar.Event, a: string, u: User, replies: seq<PutReply>): (d: Delivery)
    ensures d.attendee == a && d.url == EventUrl(s.base, s.encode, u, e.id) && d.content == ICalendar.Content(e)
  {
    Delivery(a, EventUrl(s.base, s.encode, u, e.id), ICalendar.Content(e), WriteEvent(s.base, s.encode, u, e.id, replies))
  }

  /** A write of event `e` to the calendar of the stored user it names. */
  predicate WritesEvent(users: map<string, User>, s: Setting, e: ICalendar.Event, d: Delivery) {
    && d.attendee in users
    && d.url == EventUrl(s.base, s.encode, users[d.attendee], e.id)
    && d.content == ICalendar.Content(e)
  }

  /** Each write goes to the calendar of the user it names and carries
      the event. */
  lemma {:induction false} DeliveriesWrite(users: map<string, User>, s: Setting, e: ICalendar.Event, attendees: seq<string>, k: nat)
    requires k < |Deliveries(users, s, e, attendees)|
    ensures WritesEvent(users, s, e, Deliveries(users, s, e, attendees)[k])
  {
    var ts := Targets(users, attendees, 0);
    var d := Deliveries(users, s, e, attendees)[k];
    assert d == DeliverTo(s, e, ts[k].0, users[ts[k].0], s.server(ts[k].1));
  }

  /** The visited attendees are the known ones, in request order. */
  lemma {:induction false} TargetsFollowKnown(users: map<string, User>, attendees: seq<string>, pos: nat)
    ensures var r := Targets(users, attendees, pos);
      && |r| == |Known(users, attendees)|
      && forall k :: 0 <= k < |r| ==> r[k].0 == Known(users, attendees)[k]
    decreases |attendees|
  {
    if attendees != [] {
      TargetsFollowKnown(users, attendees[1..], pos + 1);
    }
  }

  /** One write per known attendee, in request order. */
  lemma {:induction false} DeliveriesFollowKnown(users: map<string, User>, s: Setting, e: ICalendar.Event, attendees: seq<string>)
    ensures var r := Deliveries(users, s, e, attendees);
      && |r| == |Known(users, attendees)|
      && forall k :: 0 <= k < |r| ==> r[k].attendee == Known(users, attendees)[k]
  {
    TargetsFollowKnown(users, attendees, 0);
  }

  /** `createEvent`: fails only when the organizer is not a stored user;
      otherwise every known attendee gets the event and the response echoes
      the request, with the end time added and no calendar URL. */
  function CreateEvent(users: map<string, User>, s: Setting, req: EventRequest, organizer: string, eventId: string)
    : (r: Result<(EventResponse, seq<Delivery>), string>)
    ensures r.Err? <==> organizer !in users
    ensures r.Err? ==> r.error == NoOrganizer(organizer)
    ensures r.Ok? ==>
      var (resp, ds) := r.value;
      && resp == EventResponse(eventId, req.title, req.startTime, req.startTime + 60 * req.durationMinutes,
                               req.description, req.attendees, req.location, None)
      && |ds| == |Known(users, req.attendees)|
      && forall k :: 0 <= k < |ds| ==> ds[k].attendee == Known(users, req.attendees)[k]
  {
    if organizer !in users then Err(NoOrganizer(organizer))
    else
      var e := EventOf(s, req, eventId, organizer);
      var ds := Deliveries(users, s, e, req.attendees);
      DeliveriesFollowKnown(users, s, e, req.attendees);
      Ok((EventResponse(eventId, req.title, req.startTime, EndTime(req),
                        req.description, req.attendees, req.location, None), ds))
  }

  /** Every delivery carries the same iCalendar text, which lists all the
      requested attendees (known or not) as ATTENDEE lines in order. */
  lemma {:induction false} DeliveriesCarryEvent(users: map<string, User>, s: Setting, req: EventRequest, organizer: string, eventId: string, k: nat)
    requires organizer in users
    requires k < |CreateEvent(users, s, req, organizer, eventId).value.1|
    ensures var d := CreateEvent(users, s, req, organizer, eventId).value.1[k];
      && d.content == ICalendar.Content(EventOf(s, req, eventId, organizer))
      && d.attendee in users && d.attendee in req.attendees
      && d.url == EventUrl(s.base, s.encode, users[d.attendee], eventId)
  {
    var ds := CreateEvent(users, s, req, organizer, eventId).value.1;
    DeliveriesFollowKnown(users, s, EventOf(s, req, eventId, organizer), req.attendees);
    assert ds[k].attendee == Known(users, req.attendees)[k];
    DeliveriesWrite(users, s, EventOf(s, req, eventId, organizer), req.attendees, k);
  }
}
