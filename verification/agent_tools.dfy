/** The tools the agent dispatches to (`executeToolSafely` and the handlers
    behind it in AgentService): argument getters, the attendee filter, and
    the three handlers `schedule_meeting`, `send_notification` and
    `compose_letter`. JSON parsing, date parsing and formatting, the user
    directory, the meeting service and the bulk mailer are the services
    passed in. */
module AgentTools {
  import opened Wrappers
  import opened JavaString
  import opened Decimal
  import opened Json

  /** A meeting as the agent hands it to the meeting service. */
  datatype MeetingRequest = MeetingRequest(
    title: string, startTime: int, durationMinutes: int,
    attendees: seq<string>, description: string, organizer: string)

  /** What the handlers use from the rest of the system. Failures carry the
      message of the exception thrown: `sendBulk(recipients, subject, body)`
      gives `Some` message when `EmailService.sendBulkEmails` throws, which
      it does when any one of the sends failed. */
  datatype Services = Services(
    userExists: string -> bool,
    parseJson: string -> Result<Args, string>,
    parseDateTime: string -> Result<int, string>,
    formatDateTime: int -> string,
    scheduleMeeting: MeetingRequest -> Result<string, string>,
    sendBulk: (seq<string>, string, string) -> Option<string>)

  const ToolNames: seq<string> := ["schedule_meeting", "send_notification", "compose_letter"]

  // ------------------------------------------------ argument getters

  function MissingParameter(k: string): string {
    "Отсутствует обязательный параметр: " + k
  }

  /** `getStr`: the value as text, failing when it is `null`. */
  function GetStr(m: Args, k: string): (r: Result<string, string>)
    ensures r.Err? <==> Get(m, k).Null?
    ensures r.Err? ==> r.error == MissingParameter(k)
    ensures r.Ok? ==> r.value == ValueOf(Get(m, k))
  {
    var v := Get(m, k);
    if v.Null? then Err(MissingParameter(k)) else Ok(ValueOf(v))
  }

  /** `getStrOr`: the value as text, or `def` when it is `null`. */
  function GetStrOr(m: Args, k: string, def: string): (r: string)
    ensures Get(m, k).Null? ==> r == def
    ensures !Get(m, k).Null? ==> r == ValueOf(Get(m, k))
  {
    var v := Get(m, k);
    if v.Null? then def else ValueOf(v)
  }

  /** `getInt`: `def` for `null`, `intValue()` of a number (the low 32 bits
      of an integral one, the clamped truncation of a `Double`), otherwise
      `Integer.parseInt` of the value's text. */
  function GetInt(m: Args, k: string, def: int): (r: Result<int, string>)
    ensures Get(m, k).Null? ==> r == Ok(def)
    ensures Get(m, k).Int? ==> r == Ok(Wrap32(Get(m, k).i))
    ensures Get(m, k).Double? ==> r == Ok(DoubleToInt(Get(m, k).d))
    ensures !Get(m, k).Null? && r.Ok? ==> IsInt32(r.value)
    ensures r.Err? ==> r.error == BadNumber(ValueOf(Get(m, k)))
  {
    var v := Get(m, k);
    if v.Null? then Ok(def)
    else if v.Int? then Ok(Wrap32(v.i))
    else if v.Double? then Ok(DoubleToInt(v.d))
    else ParseInt(ValueOf(v))
  }

  /** `getArray` and `getList`: a JSON list printed element by element,
      failing with "Параметр k должен быть <noun>" otherwise. */
  function GetStrings(m: Args, k: string, noun: string): (r: Result<seq<string>, string>)
    ensures r.Ok? <==> Get(m, k).List?
    ensures r.Ok? ==> r.value == ValuesOf(Get(m, k).items)
    ensures r.Err? ==> r.error == "Параметр " + k + " должен быть " + noun
  {
    var v := Get(m, k);
    if v.List? then Ok(ValuesOf(v.items)) else Err("Параметр " + k + " должен быть " + noun)
  }

  function GetArray(m: Args, k: string): Result<seq<string>, string> {
    GetStrings(m, k, "массивом")
  }

  function GetList(m: Args, k: string): Result<seq<string>, string> {
    GetStrings(m, k, "списком")
  }

  /** A number written as text reads back as that number. */
  lemma {:induction false} GetIntOfText(m: Args, k: string, i: int, def: int)
    requires IsInt32(i) && k in m && m[k] == Str(IntToDecimal(i))
    ensures GetInt(m, k, def) == Ok(i)
  {
    ParseIntOfDecimal(i);
  }

  /** A list of strings reads back as those strings. */
  lemma {:induction false} GetListOfStrings(m: Args, k: string, xs: seq<string>)
    requires k in m && m[k] == List(Strings(xs))
    ensures GetList(m, k) == Ok(xs)
  {
    ValuesOfStrings(xs);
  }

  // ------------------------------------------------ address filtering

  /** An address as the handlers compare it: trimmed and lower-cased. */
  function Normalize(a: string): string {
    ToLower(Trim(a))
  }

  /** The non-blank addresses, normalised, that belong to known users, in
      input order. */
  function KnownUsers(addresses: seq<string>, userExists: string -> bool): (r: seq<string>)
    ensures forall k :: 0 <= k < |r| ==> userExists(r[k])
    ensures forall k :: 0 <= k < |r| ==> exists j :: 0 <= j < |addresses| && !IsBlank(addresses[j]) && r[k] == Normalize(addresses[j])
    ensures forall j :: 0 <= j < |addresses| && !IsBlank(addresses[j]) && userExists(Normalize(addresses[j])) ==> Normalize(addresses[j]) in r
    decreases |addresses|
  {
    if addresses == [] then []
    else
      var rest := KnownUsers(addresses[1..], userExists);
      var a := addresses[0];
      assert forall j :: 1 <= j < |addresses| ==> addresses[j] == addresses[1..][j - 1];
      if IsBlank(a) || !userExists(Normalize(a)) then rest else [Normalize(a)] + rest
  }

  /** The non-blank addresses, normalised, that are neither known users nor
      `except`, in input order. */
  function UnknownUsers(addresses: seq<string>, userExists: string -> bool, except: Option<string>): (r: seq<string>)
    ensures forall k :: 0 <= k < |r| ==> !userExists(r[k]) && Some(r[k]) != except
    ensures forall j :: 0 <= j < |addresses| && !IsBlank(addresses[j]) ==>
      var e := Normalize(addresses[j]); !userExists(e) && Some(e) != except ==> e in r
    decreases |addresses|
  {
    if addresses == [] then []
    else
      var rest := UnknownUsers(addresses[1..], userExists, except);
      var a := addresses[0];
      assert forall j :: 1 <= j < |addresses| ==> addresses[j] == addresses[1..][j - 1];
      if IsBlank(a) || userExists(Normalize(a)) || Some(Normalize(a)) == except then rest
      else [Normalize(a)] + rest
  }

  /** The known and the unknown addresses split the non-blank ones: each
      is in exactly one list, unless it is the excepted address. */
  lemma {:induction false} KnownOrUnknown(addresses: seq<string>, userExists: string -> bool, except: Option<string>, j: nat)
    requires j < |addresses| && !IsBlank(addresses[j])
    ensures var e := Normalize(addresses[j]);
      && (e in KnownUsers(addresses, userExists) || Some(e) == except || e in UnknownUsers(addresses, userExists, except))
      && !(e in KnownUsers(addresses, userExists) && e in UnknownUsers(addresses, userExists, except))
  {
  }

  /** `filterValidAttendees`: the known attendees, plus the organizer when
      not among them. */
  function FilterValidAttendees(attendees: seq<string>, organizer: string, userExists: string -> bool): (r: seq<string>)
    ensures ToLower(organizer) in r
    ensures forall k :: 0 <= k < |r| ==> userExists(r[k]) || r[k] == ToLower(organizer)
    ensures var known := KnownUsers(attendees, userExists);
      && |known| <= |r| <= |known| + 1
      && r[..|known|] == known
      && (|r| == |known| <==> ToLower(organizer) in known)
  {
    var valid := KnownUsers(attendees, userExists);
    if ToLower(organizer) in valid then valid else valid + [ToLower(organizer)]
  }

  /** The organizer is always kept, so the list is never empty. */
  lemma {:induction false} AttendeesNeverEmpty(attendees: seq<string>, organizer: string, userExists: string -> bool)
    ensures FilterValidAttendees(attendees, organizer, userExists) != []
  {
    assert ToLower(organizer) in FilterValidAttendees(attendees, organizer, userExists);
  }

  /** The message for a handler left with nobody to address. */
  function NoneValid(what: string, unknown: seq<string>): string {
    "Нет валидных " + what + ". "
    + (if unknown != [] then "Следующие email адреса не найдены в системе: " + Join(unknown, ", ") + ". " else "")
    + "Убедитесь, что email адреса указаны правильно и пользователи существуют в системе."
  }

  // ------------------------------------------------ the handlers

  /** The `attendees` argument, element by element, when it is a list. */
  function Attendees(m: Args): seq<string> {
    if Get(m, "attendees").List? then ValuesOf(Get(m, "attendees").items) else []
  }

  /** The meeting `executeScheduleMeeting` asks for: the title, the parsed
      start, the duration (60 minutes unless given), the filtered attendees,
      the description (empty unless given) and the organizer. Arguments are
      read in that order and the first failure is reported. */
  function MeetingRequestOf(svc: Services, m: Args, organizer: string): (r: Result<MeetingRequest, string>)
    ensures Get(m, "title").Null? ==> r == Err(MissingParameter("title"))
    ensures r.Ok? <==>
      && !Get(m, "title").Null? && !Get(m, "start_time").Null?
      && svc.parseDateTime(ValueOf(Get(m, "start_time"))).Ok?
      && GetInt(m, "duration_minutes", 60).Ok?
      && Get(m, "attendees").List?
    ensures r.Ok? ==>
      && r.value.title == ValueOf(Get(m, "title"))
      && r.value.startTime == svc.parseDateTime(ValueOf(Get(m, "start_time"))).value
      && r.value.durationMinutes == GetInt(m, "duration_minutes", 60).value
      && (Get(m, "duration_minutes").Null? ==> r.value.durationMinutes == 60)
      && r.value.attendees == FilterValidAttendees(Attendees(m), organizer, svc.userExists)
      && r.value.description == (if Get(m, "description").Null? then "" else ValueOf(Get(m, "description")))
      && r.value.organizer == organizer
  {
    var title :- GetStr(m, "title");
    var startText :- GetStr(m, "start_time");
    var start :- svc.parseDateTime(startText);
    var duration :- GetInt(m, "duration_minutes", 60);
    var attendees :- GetList(m, "attendees");
    var description := GetStrOr(m, "description", "");
    Ok(MeetingRequest(title, start, duration, FilterValidAttendees(attendees, organizer, svc.userExists), description, organizer))
  }

  /** The report of a scheduled meeting: its title, start, link and
      attendees. */
  function ScheduledText(title: string, when: string, url: string, attendees: seq<string>): string {
    "Встреча '" + title + "' запланирована на " + when + ". Ссылка: " + url + ". Участники: " + Join(attendees, ", ")
  }

  /** `executeScheduleMeeting`: the meeting service is asked for the
      meeting and its link is reported; its failure is the handler's. The
      organizer is always among the attendees, so the "no valid attendees"
      failure cannot occur. */
  function ScheduleMeeting(svc: Services, m: Args, organizer: string): (r: Result<string, string>)
    ensures Get(m, "title").Null? ==> r == Err(MissingParameter("title"))
    ensures r.Ok? ==> !Get(m, "start_time").Null? && Get(m, "attendees").List?
    ensures MeetingRequestOf(svc, m, organizer).Err? ==> r == Err(MeetingRequestOf(svc, m, organizer).error)
    ensures MeetingRequestOf(svc, m, organizer).Ok? ==>
      var req := MeetingRequestOf(svc, m, organizer).value;
      match svc.scheduleMeeting(req)
      case Ok(url) => r == Ok(ScheduledText(req.title, svc.formatDateTime(req.startTime), url, req.attendees))
      case Err(e) => r == Err(e)
  {
    var req :- MeetingRequestOf(svc, m, organizer);
    if req.attendees == [] then
      Err(NoneValid("участников для встречи", UnknownUsers(Attendees(m), svc.userExists, Some(ToLower(organizer)))))
    else
      var url :- svc.scheduleMeeting(req);
      Ok(ScheduledText(req.title, svc.formatDateTime(req.startTime), url, req.attendees))
  }

  /** The report of a sent notification: how many known recipients, and
      who. */
  function NotifiedText(recipients: seq<string>): string {
    "Уведомления отправлены " + IntToDecimal(|recipients|) + " получателям: " + Join(recipients, ", ")
  }

  /** `executeSendNotification`: the known recipients are mailed in one
      bulk send, which fails when any single send fails. */
  function SendNotification(svc: Services, m: Args): (r: Result<string, string>)
    ensures r.Ok? <==>
      && Get(m, "recipients").List? && !Get(m, "subject").Null? && !Get(m, "message").Null?
      && var known := KnownUsers(ValuesOf(Get(m, "recipients").items), svc.userExists);
         known != [] && svc.sendBulk(known, ValueOf(Get(m, "subject")), ValueOf(Get(m, "message"))).None?
    ensures Get(m, "recipients").List? && !Get(m, "subject").Null? && !Get(m, "message").Null? ==>
      var recipients := ValuesOf(Get(m, "recipients").items);
      var known := KnownUsers(recipients, svc.userExists);
      && (known == [] ==> r == Err(NoneValid("получателей для уведомления", UnknownUsers(recipients, svc.userExists, None))))
      && (known != [] ==>
            match svc.sendBulk(known, ValueOf(Get(m, "subject")), ValueOf(Get(m, "message")))
            case Some(e) => r == Err(e)
            case None => r == Ok(NotifiedText(known)))
  {
    var recipients :- GetArray(m, "recipients");
    var subject :- GetStr(m, "subject");
    var message :- GetStr(m, "message");
    var valid := KnownUsers(recipients, svc.userExists);
    if valid == [] then Err(NoneValid("получателей для уведомления", UnknownUsers(recipients, svc.userExists, None)))
    else match svc.sendBulk(valid, subject, message)
      case Some(e) => Err(e)
      case None => Ok(NotifiedText(valid))
  }

  /** The formatted letter: a heading line naming the recipient, a subject
      line, a blank line and the content. */
  function LetterText(recipient: string, subject: string, content: string): string {
    LineThen(LetterHead(recipient), LineThen(LetterSubject(subject), LineThen("", content)))
  }

  /** The line `p`, a line break, then `rest`. */
  function LineThen(p: string, rest: string): string {
    p + "\n" + rest
  }

  function LetterHead(recipient: string): string {
    "Письмо составлено для " + recipient + ":"
  }

  function LetterSubject(subject: string): string {
    "Тема: " + subject
  }

  /** `executeComposeLetter`: the letter is only formatted, not sent. */
  function ComposeLetter(m: Args): (r: Result<string, string>)
    ensures r.Ok? <==> !Get(m, "recipient").Null? && !Get(m, "subject").Null? && !Get(m, "content").Null?
    ensures r.Ok? ==> r.value == LetterText(ValueOf(Get(m, "recipient")), ValueOf(Get(m, "subject")), ValueOf(Get(m, "content")))
  {
    var recipient :- GetStr(m, "recipient");
    var subject :- GetStr(m, "subject");
    var content :- GetStr(m, "content");
    Ok(LetterText(recipient, subject, content))
  }

  /** Read line by line, a letter to a one-line recipient about a one-line
      subject gives its heading, its subject line, a blank line and then the
      content's own lines. */
  lemma {:induction false} LetterLines(recipient: string, subject: string, content: string)
    requires '\n' !in recipient && '\n' !in subject
    ensures SplitRaw(LetterText(recipient, subject, content), "\n")
      == [LetterHead(recipient), LetterSubject(subject), ""] + SplitRaw(content, "\n")
  {
    NoBreakInHeadings(recipient, subject);
    TwoLinesThenBlank(LetterHead(recipient), LetterSubject(subject), content);
    var x := SplitRaw(content, "\n");
    assert [LetterHead(recipient)] + ([LetterSubject(subject)] + ([""] + x)) == [LetterHead(recipient), LetterSubject(subject), ""] + x;
  }

  /** Two lines without line breaks and a blank line, then `rest`. */
  lemma {:induction false} TwoLinesThenBlank(a: string, b: string, rest: string)
    requires '\n' !in a && '\n' !in b
    ensures SplitRaw(LineThen(a, LineThen(b, LineThen("", rest))), "\n") == [a] + ([b] + ([""] + SplitRaw(rest, "\n")))
  {
    LineSplits(a, LineThen(b, LineThen("", rest)));
    LineSplits(b, LineThen("", rest));
    LineSplits("", rest);
  }

  lemma {:induction false} NoBreakInHeadings(recipient: string, subject: string)
    requires '\n' !in recipient && '\n' !in subject
    ensures '\n' !in LetterHead(recipient) && '\n' !in LetterSubject(subject)
  {
  }

  /** A line without a line break splits off as the first piece. */
  lemma {:induction false} LineSplits(p: string, rest: string)
    requires '\n' !in p
    ensures SplitRaw(LineThen(p, rest), "\n") == [p] + SplitRaw(rest, "\n")
  {
    SplitRawStep(p, '\n', rest);
  }

  /** The prefix of every failure `executeToolSafely` reports. */
  function ToolFailure(name: string, message: string): string {
    "Ошибка выполнения tool " + name + ": " + message
  }

  /** `executeToolSafely`: the arguments are parsed first, then the handler
      for `name` runs; any failure is reported with the tool's name. */
  function ExecuteToolSafely(svc: Services, organizer: string, name: string, json: string): (r: Result<string, string>)
    ensures r.Err? ==> exists m :: r.error == ToolFailure(name, m)
    ensures svc.parseJson(json).Err? ==> r == Err(ToolFailure(name, "Не удалось распарсить аргументы: " + svc.parseJson(json).error))
    ensures svc.parseJson(json).Ok? && name !in ToolNames ==> r == Err(ToolFailure(name, "Неизвестный tool: " + name))
  {
    var outcome :=
      match svc.parseJson(json)
      case Err(m) => Err("Не удалось распарсить аргументы: " + m)
      case Ok(args) =>
        if name == "schedule_meeting" then ScheduleMeeting(svc, args, organizer)
        else if name == "send_notification" then SendNotification(svc, args)
        else if name == "compose_letter" then ComposeLetter(args)
        else Err("Неизвестный tool: " + name);
    if outcome.Err? then Err(ToolFailure(name, outcome.error)) else outcome
  }
}
