/** The iCalendar text CalendarService PUTs for an event: TEXT escaping as
    in section 3.3.11 of RFC 5545 (`escapeICalText`) and the one-event
    VCALENDAR object of `generateICalendarContent` (sections 3.4 and 3.6.1
    of RFC 5545). Timestamps arrive already formatted. */
module ICalendar {
  import opened Wrappers
  import opened JavaString
  import opened Replace
  import opened CrlfLines

  // ------------------------------------------------------------- escaping

  /** The `replace` calls of `escapeICalText`, in order: the backslash
      first, then comma, semicolon, line feed, and carriage return (which is
      dropped). */
  const EscapeRules: seq<Rule> :=
    [Rule('\\', "\\\\"), Rule(',', "\\,"), Rule(';', "\\;"), Rule('\n', "\\n"), Rule('\r', "")]

  /** The chain of `replace` calls in `escapeICalText`, as written. */
  function EscapeChain(s: string): string {
    ReplaceChain(s, EscapeRules)
  }

  /** The table row of each character, written out. */
  function EscapeChar(c: char): string {
    if c == '\\' then "\\\\"
    else if c == ',' then "\\,"
    else if c == ';' then "\\;"
    else if c == '\n' then "\\n"
    else if c == '\r' then ""
    else [c]
  }

  /** Every character escaped on its own. */
  function EscapeText(s: string): string {
    if s == [] then [] else EscapeChar(s[0]) + EscapeText(s[1..])
  }

  /** `escapeICalText`; `null` becomes the empty string. */
  function Escape(text: Option<string>): string {
    match text
    case None => ""
    case Some(s) => EscapeText(s)
  }

  lemma {:induction false} LookupEscape(c: char)
    ensures Lookup(EscapeRules, c) == EscapeChar(c)
  {
  }

  lemma {:induction false} MapIsEscapeText(s: string)
    ensures MapChars(s, EscapeRules) == EscapeText(s)
  {
    if s != [] {
      LookupEscape(s[0]);
      MapIsEscapeText(s[1..]);
    }
  }

  /** Because the backslash is replaced first, no later `replace` rewrites
      text an earlier one produced, so the chain escapes each character on
      its own. */
  lemma {:induction false} EscapeChainIsTable(s: string)
    ensures EscapeChain(s) == EscapeText(s)
  {
    EscapeRulesKeepOrder();
    ChainIsMap(s, EscapeRules);
    MapIsEscapeText(s);
  }

  lemma {:induction false} EscapeRulesKeepOrder()
    ensures NoLaterKeys(EscapeRules)
  {
    forall i, j | 0 <= i < j < |EscapeRules| ensures EscapeRules[j].key !in EscapeRules[i].value {
      LaterKeyAbsent(i, j);
    }
  }

  lemma {:induction false} LaterKeyAbsent(i: int, j: int)
    requires 0 <= i < j < |EscapeRules|
    ensures EscapeRules[j].key !in EscapeRules[i].value
  {
    var v := EscapeRules[i].value;
    assert i == 4 || v == ['\\', EscapeRules[i].key] || v == ['\\', 'n'];
  }

  /** The character an escape `\c` stands for. */
  function Unescaped(c: char): char {
    if c == 'n' || c == 'N' then '\n' else c
  }

  predicate IsEscapable(c: char) {
    c == '\\' || c == ';' || c == ',' || c == 'n' || c == 'N'
  }

  /** Decoding of a TEXT value (section 3.3.11 of RFC 5545): `\\`, `\;`,
      `\,`, `\n` and `\N` stand for one character each; any other character,
      including a backslash before anything else, stands for itself. */
  function Unescape(s: string): string
    decreases |s|
  {
    if s == [] then []
    else if s[0] == '\\' && |s| >= 2 && IsEscapable(s[1]) then [Unescaped(s[1])] + Unescape(s[2..])
    else [s[0]] + Unescape(s[1..])
  }

  /** The text with its carriage returns removed. */
  function DropCR(s: string): (r: string)
    ensures '\r' !in r
  {
    if s == [] then [] else (if s[0] == '\r' then [] else [s[0]]) + DropCR(s[1..])
  }

  /** One escaped character decodes back to itself (a CR to nothing). */
  lemma {:induction false} UnescapeOne(c: char, t: string)
    ensures Unescape(EscapeChar(c) + t) == DropCR([c]) + Unescape(t)
  {
    DropOneCR(c);
    if c == '\\' {
      UnescapePair('\\', t);
    } else if c == ',' {
      UnescapePair(',', t);
    } else if c == ';' {
      UnescapePair(';', t);
    } else if c == '\n' {
      UnescapePair('n', t);
    } else if c != '\r' {
      UnescapePlain(c, t);
    } else {
      assert EscapeChar(c) + t == t;
    }
  }

  lemma {:induction false} UnescapePair(e: char, t: string)
    requires IsEscapable(e)
    ensures Unescape(['\\', e] + t) == [Unescaped(e)] + Unescape(t)
  {
    var s := ['\\', e] + t;
    assert s[0] == '\\' && s[1] == e && s[2..] == t;
  }

  lemma {:induction false} UnescapePlain(c: char, t: string)
    requires c != '\\'
    ensures Unescape([c] + t) == [c] + Unescape(t)
  {
    var s := [c] + t;
    assert s[0] == c && s[1..] == t;
  }

  lemma {:induction false} DropOneCR(c: char)
    ensures DropCR([c]) == if c == '\r' then [] else [c]
  {
    assert [c][1..] == [];
  }

  /** Decoding the escaped text gives back the input, less its carriage
      returns. */
  lemma {:induction false} UnescapeEscape(s: string)
    ensures Unescape(Escape(Some(s))) == DropCR(s)
    decreases |s|
  {
    if s != [] {
      UnescapeEscape(s[1..]);
      UnescapeOne(s[0], EscapeText(s[1..]));
      assert DropCR(s) == DropCR([s[0]]) + DropCR(s[1..]);
    }
  }

  /** Escaped text has no line breaks, so it stays on its content line. */
  lemma {:induction false} EscapeHasNoLineBreaks(text: Option<string>)
    ensures '\n' !in Escape(text) && '\r' !in Escape(text)
  {
    if text.Some? {
      EscapeTextNoLineBreaks(text.value);
    }
  }

  lemma {:induction false} EscapeTextNoLineBreaks(s: string)
    ensures '\n' !in EscapeText(s) && '\r' !in EscapeText(s)
  {
    if s != [] {
      EscapeTextNoLineBreaks(s[1..]);
    }
  }

  // ------------------------------------------------------------- the object

  /** What `generateICalendarContent` receives, timestamps formatted as
      `yyyyMMdd'T'HHmmss'Z'` in UTC. */
  datatype Event = Event(
    id: string, stamp: string, start: string, end: string,
    title: Option<string>, description: Option<string>, location: Option<string>,
    organizer: string, attendees: seq<string>)

  /** A value that is present and not empty. */
  predicate IsPresent(v: Option<string>) {
    v.Some? && v.value != []
  }

  const BeginCalendar: Line := "BEGIN:VCALENDAR"
  const Version: Line := "VERSION:2.0"
  const ProdIdProduct: Line := "-//Business Assistant"
  const ProdIdService: Line := "//Calendar Service//EN"
  const ProdId: Line := "PRODID:" + ProdIdProduct + ProdIdService
  const CalScale: Line := "CALSCALE:GREGORIAN"
  const Method: Line := "METHOD:REQUEST"
  const BeginEvent: Line := "BEGIN:VEVENT"
  const Confirmed: Line := "STATUS:CONFIRMED"
  const Sequence: Line := "SEQUENCE:0"
  const EndEvent: Line := "END:VEVENT"
  const EndCalendar: Line := "END:VCALENDAR"

  const Head: seq<Line> := [BeginCalendar, Version, ProdId, CalScale, Method, BeginEvent]

  const Tail: seq<Line> := [Confirmed, Sequence, EndEvent, EndCalendar]

  const UidDomain: Line := "@business-assistant.local"
  const AttendeeTag: Line := "ATTENDEE;CN="
  const RsvpMailto: Line := ";RSVP=TRUE:MAILTO:"
  const OrganizerTag: Line := "ORGANIZER;CN="
  const Mailto: Line := ":MAILTO:"

  function UidLine(id: string): string {
    "UID:" + id + UidDomain
  }

  function AttendeeLine(a: string): string {
    AttendeeTag + Escape(Some(a)) + RsvpMailto + a
  }

  function OrganizerLine(o: string): string {
    OrganizerTag + Escape(Some(o)) + Mailto + o
  }

  function AttendeeLines(attendees: seq<string>): (r: seq<string>)
    ensures |r| == |attendees|
    ensures forall k :: 0 <= k < |r| ==> r[k] == AttendeeLine(attendees[k])
  {
    if attendees == [] then [] else [AttendeeLine(attendees[0])] + AttendeeLines(attendees[1..])
  }

  /** The optional line `name:<escaped value>`. */
  function Optional(name: string, v: Option<string>): seq<string> {
    if IsPresent(v) then [name + ":" + Escape(v)] else []
  }

  /** The properties of the event before its attendees. */
  function Properties(e: Event): seq<string> {
    [UidLine(e.id), "DTSTAMP:" + e.stamp, "DTSTART:" + e.start, "DTEND:" + e.end, "SUMMARY:" + Escape(e.title)]
    + Optional("DESCRIPTION", e.description)
    + Optional("LOCATION", e.location)
    + [OrganizerLine(e.organizer)]
  }

  /** The content lines, without their terminators. */
  function Lines(e: Event): seq<string> {
    Head + Properties(e) + AttendeeLines(e.attendees) + Tail
  }

  /** `generateICalendarContent`. */
  function Content(e: Event): string {
    Terminate(Lines(e))
  }

  /** Indexing into four concatenated sequences. */
  lemma {:induction false} Concat4<T>(a: seq<T>, b: seq<T>, c: seq<T>, d: seq<T>)
    ensures var s := a + b + c + d;
      && |s| == |a| + |b| + |c| + |d|
      && s[..|a|] == a
      && s[|a|..|a| + |b|] == b
      && (forall k :: 0 <= k < |c| ==> s[|a| + |b| + k] == c[k])
      && s[|s| - |d|..] == d
  {
    var s := a + b + c + d;
    assert s[..|a|] == a;
    assert s[|a|..|a| + |b|] == b;
    assert s[|s| - |d|..] == d;
  }

  /** The frame of the object: the calendar wraps exactly one event,
      whose properties come first and whose attendees follow one line
      each, in order. */
  lemma {:induction false} LinesFrame(e: Event)
    ensures var ls := Lines(e); var n := |Properties(e)|;
      && |ls| == 10 + n + |e.attendees|
      && ls[..6] == Head && ls[0] == BeginCalendar && ls[5] == BeginEvent
      && ls[6..6 + n] == Properties(e)
      && (forall k :: 0 <= k < |e.attendees| ==> ls[6 + n + k] == AttendeeLine(e.attendees[k]))
      && ls[|ls| - 4..] == Tail && ls[|ls| - 2] == EndEvent && ls[|ls| - 1] == EndCalendar
  {
    Concat4(Head, Properties(e), AttendeeLines(e.attendees), Tail);
    EndsOf(Lines(e));
  }

  /** The first and last lines of a text that starts with `Head` and ends
      with `Tail`. */
  lemma {:induction false} EndsOf(ls: seq<string>)
    requires |ls| >= 10 && ls[..6] == Head && ls[|ls| - 4..] == Tail
    ensures ls[0] == BeginCalendar && ls[5] == BeginEvent
    ensures ls[|ls| - 2] == EndEvent && ls[|ls| - 1] == EndCalendar
  {
    assert ls[0] == Head[0] && ls[5] == Head[5];
    assert ls[|ls| - 2] == Tail[2] && ls[|ls| - 1] == Tail[3];
  }

  /** The UID follows BEGIN:VEVENT; DESCRIPTION and LOCATION are there
      exactly when their values are present and non-empty; the organizer
      closes the properties. */
  lemma {:induction false} PropertiesLayout(e: Event)
    ensures var ps := Properties(e);
      var d := if IsPresent(e.description) then 1 else 0;
      var l := if IsPresent(e.location) then 1 else 0;
      && |ps| == 6 + d + l
      && ps[0] == UidLine(e.id)
      && ps[4] == "SUMMARY:" + Escape(e.title)
      && (IsPresent(e.description) <==> ps[5] == "DESCRIPTION:" + Escape(e.description))
      && (IsPresent(e.location) <==> ps[5 + d] == "LOCATION:" + Escape(e.location))
      && ps[5 + d + l] == OrganizerLine(e.organizer)
  {
    var ps := Properties(e);
    var d := if IsPresent(e.description) then 1 else 0;
    if !IsPresent(e.description) {
      assert ps[5][0] != ("DESCRIPTION:" + Escape(e.description))[0];
    }
    if !IsPresent(e.location) {
      assert ps[5 + d][0] != ("LOCATION:" + Escape(e.location))[0];
    }
  }

  /** The fields that go into the object unescaped. */
  predicate HasNoCR(e: Event) {
    && NoCR(e.id) && NoCR(e.stamp) && NoCR(e.start) && NoCR(e.end)
    && NoCR(e.organizer) && NoCRs(e.attendees)
  }

  lemma {:induction false} FrameNoCR()
    ensures NoCRs(Head) && NoCRs(Tail)
  {
  }

  lemma {:induction false} EscapedNoCR(text: Option<string>)
    ensures NoCR(Escape(text))
  {
    EscapeHasNoLineBreaks(text);
  }

  /** A tag followed by the escaped text. */
  lemma {:induction false} TaggedNoCR(tag: Line, text: Option<string>)
    ensures NoCR(tag + Escape(text))
  {
    EscapedNoCR(text);
    NoCRConcat(tag, Escape(text));
  }

  lemma {:induction false} OptionalNoCR(name: Line, v: Option<string>)
    ensures NoCRs(Optional(name, v))
  {
    var colon: Line := ":";
    NoCRConcat(name, colon);
    TaggedNoCR(name + colon, v);
    assert name + ":" + Escape(v) == (name + colon) + Escape(v);
  }

  lemma {:induction false} AddressLineNoCR(tag: Line, a: string, mid: Line)
    requires NoCR(a)
    ensures NoCR(tag + Escape(Some(a)) + mid + a)
  {
    TaggedNoCR(tag, Some(a));
    NoCRConcat(tag + Escape(Some(a)), mid);
    NoCRConcat(tag + Escape(Some(a)) + mid, a);
  }

  lemma {:induction false} PropertiesNoCR(e: Event)
    requires HasNoCR(e)
    ensures NoCRs(Properties(e))
  {
    var uid: Line := "UID:";
    NoCRConcat(uid, e.id);
    NoCRConcat(uid + e.id, UidDomain);
    var stamp: Line := "DTSTAMP:";
    var start: Line := "DTSTART:";
    var end: Line := "DTEND:";
    var summary: Line := "SUMMARY:";
    NoCRConcat(stamp, e.stamp);
    NoCRConcat(start, e.start);
    NoCRConcat(end, e.end);
    TaggedNoCR(summary, e.title);
    var description: Line := "DESCRIPTION";
    var location: Line := "LOCATION";
    OptionalNoCR(description, e.description);
    OptionalNoCR(location, e.location);
    AddressLineNoCR(OrganizerTag, e.organizer, Mailto);
    var fixed := [UidLine(e.id), "DTSTAMP:" + e.stamp, "DTSTART:" + e.start, "DTEND:" + e.end, "SUMMARY:" + Escape(e.title)];
    assert NoCRs(fixed);
    NoCRsConcat(fixed, Optional("DESCRIPTION", e.description));
    NoCRsConcat(fixed + Optional("DESCRIPTION", e.description), Optional("LOCATION", e.location));
    NoCRsConcat(fixed + Optional("DESCRIPTION", e.description) + Optional("LOCATION", e.location), [OrganizerLine(e.organizer)]);
  }

  lemma {:induction false} AttendeesNoCR(e: Event)
    requires HasNoCR(e)
    ensures NoCRs(AttendeeLines(e.attendees))
  {
    var att := AttendeeLines(e.attendees);
    forall k | 0 <= k < |att| ensures NoCR(att[k]) {
      AddressLineNoCR(AttendeeTag, e.attendees[k], RsvpMailto);
    }
  }

  /** When the unescaped fields hold no CR, the content is exactly the
      lines, each terminated by CRLF. */
  lemma {:induction false} ContentIsLines(e: Event)
    requires HasNoCR(e)
    ensures SplitRaw(Content(e), "\r\n") == Lines(e) + [""]
  {
    PropertiesNoCR(e);
    AttendeesNoCR(e);
    FrameNoCR();
    NoCRsConcat(Head, Properties(e));
    NoCRsConcat(Head + Properties(e), AttendeeLines(e.attendees));
    NoCRsConcat(Head + Properties(e) + AttendeeLines(e.attendees), Tail);
    SplitTerminate(Lines(e));
  }
}
