/** CalendarProvisioningService: creating a user's calendar collection on
    the Radicale server with an extended MKCOL request (section 5.1 of RFC
    5689), written by hand on a socket, and reading the status code back
    from the first response line (section 4 of RFC 9112). */
module Provisioning {
  import opened Wrappers
  import opened JavaString
  import opened Decimal
  import opened CrlfLines
  import CalendarName

  // ------------------------------------------------------------ addresses

  /** `calendar.caldav.base-url` as `java.net.URL` splits it; `port` is -1
      when the URL names none. */
  datatype BaseUrl = BaseUrl(protocol: string, host: string, port: int, path: string)

  /** The configured default, "http://calendar:5232". */
  const DefaultBase := BaseUrl("http", "calendar", 5232, "")

  function Origin(b: BaseUrl): string {
    b.protocol + "://" + b.host + (if b.port == -1 then "" else ":" + IntToDecimal(b.port))
  }

  function BaseText(b: BaseUrl): string {
    Origin(b) + b.path
  }

  /** The path of a user's collection, `/<user>/<calendar>/` below the base
      path; `encode` stands for `URLEncoder.encode(_, UTF_8)`. */
  function CollectionPath(b: BaseUrl, encode: string -> string, email: string, name: string): string {
    b.path + "/" + encode(email) + "/" + encode(name) + "/"
  }

  /** `calendarUrl`: the base followed by the user and calendar segments. */
  function CollectionUrl(b: BaseUrl, encode: string -> string, email: string, name: string): (r: string)
    ensures r == Origin(b) + CollectionPath(b, encode, email, name)
  {
    BaseText(b) + "/" + encode(email) + "/" + encode(name) + "/"
  }

  /** The port the socket connects to: the URL's own, else 443 for https
      and 80 for anything else. */
  function EffectivePort(b: BaseUrl): (r: int)
    ensures b.port != -1 ==> r == b.port
    ensures b.port == -1 ==> (r == 443 <==> b.protocol == "https") && (r == 80 <==> b.protocol != "https")
  {
    if b.port == -1 then (if b.protocol == "https" then 443 else 80) else b.port
  }

  // ----------------------------------------------------------- UTF-8 size

  /** The number of UTF-8 bytes of one character. A Dafny `char` is a
      Unicode scalar value; one above U+FFFF is a surrogate pair in Java
      and four bytes either way. */
  function Utf8Width(c: char): (n: nat)
    ensures 1 <= n <= 4
    ensures n == 1 <==> c < '\U{0080}'
  {
    if c < '\U{0080}' then 1
    else if c < '\U{0800}' then 2
    else if c as int < 0x1_0000 then 3
    else 4
  }

  /** `s.getBytes(UTF_8).length`. */
  function Utf8Length(s: string): (n: nat)
    ensures |s| <= n <= 4 * |s|
  {
    if s == [] then 0 else Utf8Width(s[0]) + Utf8Length(s[1..])
  }

  /** ASCII text has one byte per character, and only ASCII text does. */
  lemma {:induction false} Utf8LengthOfAscii(s: string)
    ensures Utf8Length(s) == |s| <==> IsAscii(s)
  {
    if s != [] {
      Utf8LengthOfAscii(s[1..]);
      if IsAscii(s) {
        assert IsAscii(s[1..]) by {
          assert forall k :: 0 <= k < |s[1..]| ==> s[1..][k] == s[k + 1];
        }
      }
      if IsAscii(s[1..]) && s[0] < '\U{0080}' {
        assert forall k :: 1 <= k < |s| ==> s[k] == s[1..][k - 1];
      }
    }
  }

  // ----------------------------------------------------------- MKCOL body

  type AsciiText = CalendarName.AsciiText

  const XmlDecl: AsciiText := "<?xml version=\"1.0\"" + " encoding=\"utf-8\" ?>\n"
  const MkcolTag: AsciiText := "<D:mkcol " + "xmlns:D=\"DAV:\""
  const CalDavPrefix: AsciiText := " xmlns:C=" + "\"urn:ietf:"
  const CalDavSuffix: AsciiText := "params:xml:ns:" + "caldav\">\n"
  const MkcolOpen: AsciiText := MkcolTag + CalDavPrefix + CalDavSuffix
  const SetOpen: AsciiText := "    <D:set>\n" + "        <D:prop>\n"
  const TypeOpen: AsciiText := "            " + "<D:resourcetype>\n"
  const Collection: AsciiText := "                " + "<D:collection/>\n"
  const Calendar: AsciiText := "                " + "<C:calendar/>\n"
  const TypeClose: AsciiText := "            " + "</D:resourcetype>\n"
  const NameOpen: AsciiText := "            " + "<D:displayname>"
  const NameClose: AsciiText := "</D:displayname>\n"
  const SetClose: AsciiText := "        </D:prop>\n" + "    </D:set>\n"
  const MkcolClose: AsciiText := "</D:mkcol>\n"

  /** The text of the body up to the display name. */
  const BodyBefore: AsciiText := Preamble + ResourceType + NameOpen
  const Preamble: AsciiText := XmlDecl + MkcolOpen + SetOpen
  const ResourceType: AsciiText := TypeOpen + Collection + Calendar + TypeClose

  /** The text of the body after the display name. */
  const BodyAfter: AsciiText := NameClose + SetClose + MkcolClose

  /** The MKCOL body: set the resource type to a calendar collection and
      the display name to `name`. */
  function MkcolBody(name: string): string {
    BodyBefore + name + BodyAfter
  }

  /** The characters that would need escaping inside XML character data. */
  predicate IsXmlSpecial(c: char) {
    c == '<' || c == '>' || c == '&' || c == '"' || c == '\''
  }

  /** For a sanitised calendar name the display name is the name itself,
      which holds no XML-special character, and the whole body is ASCII, so
      its byte length is its length. */
  lemma {:induction false} MkcolBodyOfSafeName(name: string)
    requires CalendarName.IsSafeName(name)
    ensures var body := MkcolBody(name);
      && body[|BodyBefore|..|BodyBefore| + |name|] == name
      && (forall k :: 0 <= k < |name| ==> !IsXmlSpecial(name[k]))
      && Utf8Length(body) == |body|
  {
    SafeNameIsAscii(name);
    FramedAscii(BodyBefore, name, BodyAfter);
  }

  lemma {:induction false} SafeNameIsAscii(name: string)
    requires CalendarName.IsSafeName(name)
    ensures IsAscii(name) && forall k :: 0 <= k < |name| ==> !IsXmlSpecial(name[k])
  {
    assert forall k :: 0 <= k < |name| ==> CalendarName.IsSafeChar(name[k]);
  }

  /** ASCII text between ASCII text: found where it was put, and one byte
      per character overall. */
  lemma {:induction false} FramedAscii(before: string, name: string, after: string)
    requires IsAscii(before) && IsAscii(name) && IsAscii(after)
    ensures (before + name + after)[|before|..|before| + |name|] == name
    ensures Utf8Length(before + name + after) == |before + name + after|
  {
    AsciiConcat(before, name);
    AsciiConcat(before + name, after);
    Utf8LengthOfAscii(before + name + after);
  }

  lemma {:induction false} AsciiConcat(a: string, b: string)
    requires IsAscii(a) && IsAscii(b)
    ensures IsAscii(a + b)
  {
  }

  // -------------------------------------------------------- MKCOL request

  const ContentType: Line := "Content-Type: " + "application/xml; " + "charset=utf-8"
  const Depth: Line := "Depth: 0"
  const Close: Line := "Connection: close"

  /** The `Host` header: the port is written only when it is neither 80
      nor 443. */
  function HostLine(host: string, port: int): string {
    "Host: " + host + (if port != 80 && port != 443 then ":" + IntToDecimal(port) else "")
  }

  lemma {:induction false} HostLineCarriesPort(host: string, port: int)
    ensures HostLine(host, port) == "Host: " + host + ":" + IntToDecimal(port) <==> port != 80 && port != 443
  {
    if port == 80 || port == 443 {
      assert |HostLine(host, port)| < |"Host: " + host + ":" + IntToDecimal(port)|;
    }
  }

  /** The request line and header lines. `auth` is the Base64 text of
      "email:password". */
  function RequestHead(path: string, host: string, port: int, auth: string, body: string): seq<string> {
    ["MKCOL " + path + " HTTP/1.1",
     HostLine(host, port),
     "Authorization: Basic " + auth,
     ContentType,
     Depth,
     "Content-Length: " + IntToDecimal(Utf8Length(body)),
     Close]
  }

  /** The request written on the socket: head, empty line, body. */
  function MkcolRequest(path: string, host: string, port: int, auth: string, body: string): string {
    Framed(RequestHead(path, host, port, auth, body), body)
  }

  /** When path, host and credentials hold no CR, a reader that ends the
      head at the first empty line gets back the request line and headers,
      and after the empty line exactly the body whose UTF-8 size
      Content-Length announces. */
  lemma {:induction false} RequestFraming(path: string, host: string, port: int, auth: string, body: string)
    requires NoCR(path) && NoCR(host) && NoCR(auth)
    ensures ReadsAs(MkcolRequest(path, host, port, auth, body), RequestHead(path, host, port, auth, body), body)
  {
    HeadLinesClean(path, host, port, auth, body);
    FramedMessage(RequestHead(path, host, port, auth, body), body);
  }

  lemma {:induction false} HeadLinesClean(path: string, host: string, port: int, auth: string, body: string)
    requires NoCR(path) && NoCR(host) && NoCR(auth)
    ensures AreHeaderLines(RequestHead(path, host, port, auth, body))
    ensures NoCRs(RequestHead(path, host, port, auth, body))
  {
    var mkcol: Line := "MKCOL ";
    var version: Line := " HTTP/1.1";
    NoCRConcat(mkcol, path);
    NoCRConcat(mkcol + path, version);
    var hostTag: Line := "Host: ";
    var colon: Line := ":";
    var portText := if port != 80 && port != 443 then ":" + IntToDecimal(port) else "";
    DecimalNoCR(port);
    NoCRConcat(colon, IntToDecimal(port));
    NoCRConcat(hostTag, host);
    NoCRConcat(hostTag + host, portText);
    var basic: Line := "Authorization: Basic ";
    NoCRConcat(basic, auth);
    var length: Line := "Content-Length: ";
    DecimalNoCR(Utf8Length(body));
    NoCRConcat(length, IntToDecimal(Utf8Length(body)));
  }

  lemma {:induction false} DecimalNoCR(i: int)
    ensures NoCR(IntToDecimal(i))
  {
    if i >= 0 {
      assert Decimal.AllDigits(NatToDecimal(i));
    } else {
      assert Decimal.AllDigits(NatToDecimal(-i));
    }
  }

  // ------------------------------------------------------- status line

  /** `parseStatusCode`: the second `\s+`-separated token of the status
      line read as an `int`, or -1 when there is none or it is not a
      number. */
  function ParseStatusCode(line: string): (r: int)
    ensures r != -1 ==> |SplitWs(line)| >= 2 && ParseInt(SplitWs(line)[1]) == Ok(r)
    ensures |SplitWs(line)| < 2 ==> r == -1
  {
    var parts := SplitWs(line);
    if |parts| >= 2 then
      match ParseInt(parts[1])
      case Ok(v) => v
      case Err(_) => -1
    else -1
  }

  lemma {:induction false} DecimalHasNoSpace(i: int)
    ensures !HasRegexSpace(IntToDecimal(i))
    ensures !IsRegexSpace(IntToDecimal(i)[0])
  {
    var d := IntToDecimal(i);
    var n := if i < 0 then NatToDecimal(-i) else NatToDecimal(i);
    assert Decimal.AllDigits(n);
    assert forall k :: 0 <= k < |d| ==> d[k] == '-' || IsAsciiDigit(d[k]);
  }

  /** A word, one space, and text that starts with no whitespace. */
  lemma {:induction false} WordThenSpace(w: string, rest: string)
    requires w != [] && !HasRegexSpace(w)
    requires rest == [] || !IsRegexSpace(rest[0])
    ensures SplitWsRaw(w + " " + rest) == [w] + SplitWsRaw(rest)
  {
    SplitWsRawWord(w, " ", rest);
    assert (" " + rest)[1..] == rest;
    assert SkipRegexSpace(" " + rest) == rest;
  }

  /** A word followed by nothing or by whitespace is the first piece. */
  lemma {:induction false} FirstWord(w: string, tail: string)
    requires w != [] && !HasRegexSpace(w)
    requires tail == [] || IsRegexSpace(tail[0])
    ensures SplitWsRaw(w + tail)[0] == w
  {
    if tail == [] {
      assert w + tail == w;
      LoneWord(w);
    } else {
      assert tail == [tail[0]] + tail[1..];
      WordThenGap(w, tail[0], tail[1..]);
    }
  }

  /** A word alone is its own only piece. */
  lemma {:induction false} LoneWord(w: string)
    requires w != [] && !HasRegexSpace(w)
    ensures SplitWsRaw(w) == [w]
  {
    assert FirstRegexSpace(w) == -1;
  }

  /** A word followed by whitespace is the first piece. */
  lemma {:induction false} WordThenGap(w: string, c: char, rest: string)
    requires w != [] && !HasRegexSpace(w)
    requires IsRegexSpace(c)
    ensures SplitWsRaw(w + ([c] + rest))[0] == w
  {
    assert w + ([c] + rest) == w + [c] + rest;
    SplitWsRawWord(w, [c], rest);
  }

  /** Two words separated by a space, then nothing or whitespace: the
      words are the first two pieces. */
  lemma {:induction false} TwoWords(w1: string, w2: string, tail: string)
    requires w1 != [] && !HasRegexSpace(w1)
    requires w2 != [] && !HasRegexSpace(w2)
    requires tail == [] || IsRegexSpace(tail[0])
    ensures var raw := SplitWsRaw(w1 + " " + w2 + tail);
      |raw| >= 2 && raw[0] == w1 && raw[1] == w2
  {
    var rest := w2 + tail;
    assert w1 + " " + w2 + tail == w1 + " " + rest;
    assert rest[0] == w2[0];
    WordThenSpace(w1, rest);
    FirstWord(w2, tail);
  }

  /** The second piece of `split("\\s+")` when the second raw piece is a
      word. */
  lemma {:induction false} SecondWord(s: string)
    requires HasRegexSpace(s)
    requires |SplitWsRaw(s)| >= 2 && SplitWsRaw(s)[1] != []
    ensures |SplitWs(s)| >= 2 && SplitWs(s)[1] == SplitWsRaw(s)[1]
  {
    var raw := SplitWsRaw(s);
    var parts := DropTrailingEmpty(raw);
    assert parts == raw[..|parts|];
  }

  /** A status line "<version> <code><tail>", where the version is one
      word and the tail is empty or starts with whitespace (the reason
      phrase), yields the code. */
  lemma {:induction false} ParseStatusLine(version: string, code: int, tail: string)
    requires IsInt32(code)
    requires version != [] && !HasRegexSpace(version)
    requires tail == [] || IsRegexSpace(tail[0])
    ensures ParseStatusCode(version + " " + IntToDecimal(code) + tail) == code
  {
    var d := IntToDecimal(code);
    DecimalHasNoSpace(code);
    var s := version + " " + d + tail;
    TwoWords(version, d, tail);
    assert IsRegexSpace(s[|version|]);
    SecondWord(s);
    ParseIntOfDecimal(code);
  }

  /** A line with fewer than two words, or whose second word is not a
      number, yields -1. */
  lemma {:induction false} ParseStatusLineFails(line: string)
    requires |SplitWs(line)| < 2 || ParseInt(SplitWs(line)[1]).Err?
    ensures ParseStatusCode(line) == -1
  {
  }

  // ------------------------------------------------------------ outcome

  /** What the socket exchange gave: the first response line, end of
      stream before any line, or an exception (connection refused and any
      other). */
  datatype MkcolReply = StatusLine(line: string) | NoResponse | Thrown(message: string)

  /** How `createCalendarViaCalDAV` reads the reply; each case is only
      logged. */
  datatype Verdict = Created | AlreadyExists | MultiStatus | Unauthorized | Unexpected(code: int) | Empty | Failed

  function Classify(reply: MkcolReply): (v: Verdict)
    ensures reply.StatusLine? && ParseStatusCode(reply.line) in {201, 204} ==> v == Created
    ensures v.Unexpected? ==> reply.StatusLine? && v.code !in {201, 204, 405, 207, 401, 403}
  {
    match reply
    case NoResponse => Empty
    case Thrown(_) => Failed
    case StatusLine(line) =>
      var code := ParseStatusCode(line);
      if code == 201 || code == 204 then Created
      else if code == 405 then AlreadyExists
      else if code == 207 then MultiStatus
      else if code == 401 || code == 403 then Unauthorized
      else Unexpected(code)
  }

  /** `RadicaleAccountResponse`: the CalDAV user, the calendar and the
      address. */
  datatype Account = Account(username: string, calendarId: string, email: string)

  /** `createCalendar`. The htpasswd step and every failure of the MKCOL
      exchange are caught and logged, so whatever `reply` is, the account
      names the sanitised calendar; the `"default"` fallback of the outer
      catch cannot be reached. */
  function CreateCalendar(email: string, firstName: Option<string>, reply: MkcolReply): (r: Account)
    ensures r.username == email && r.email == email
    ensures r.calendarId == CalendarName.ForUser(firstName)
    ensures CalendarName.IsSafeName(r.calendarId)
  {
    var name := CalendarName.ForUser(firstName);
    var _ := Classify(reply);
    Account(email, name, email)
  }

  /** The request `createCalendar` writes for the calendar `name`. */
  function MkcolRequestFor(b: BaseUrl, encode: string -> string, auth: string, email: string, name: string): string {
    MkcolRequest(CollectionPath(b, encode, email, name), b.host, EffectivePort(b), auth, MkcolBody(name))
  }

  lemma {:induction false} PathNoCR(b: BaseUrl, encode: string -> string, email: string, name: string)
    requires NoCR(b.path) && NoCR(encode(email)) && NoCR(encode(name))
    ensures NoCR(CollectionPath(b, encode, email, name))
  {
    var slash: Line := "/";
    NoCRConcat(b.path, slash);
    NoCRConcat(b.path + slash, encode(email));
    NoCRConcat(b.path + slash + encode(email), slash);
    NoCRConcat(b.path + slash + encode(email) + slash, encode(name));
    NoCRConcat(b.path + slash + encode(email) + slash + encode(name), slash);
  }

  /** For a sanitised calendar name (every name `createCalendar` uses)
      the body found after the first empty line is the MKCOL body for that
      name, and it is ASCII, so Content-Length is its length in
      characters. */
  lemma {:induction false} MkcolRequestForCalendar(b: BaseUrl, encode: string -> string, auth: string, email: string, name: string)
    requires CalendarName.IsSafeName(name)
    requires NoCR(b.path) && NoCR(b.host) && NoCR(auth) && NoCR(encode(email)) && NoCR(encode(name))
    ensures ReadsAs(MkcolRequestFor(b, encode, auth, email, name),
                    RequestHead(CollectionPath(b, encode, email, name), b.host, EffectivePort(b), auth, MkcolBody(name)),
                    MkcolBody(name))
    ensures Utf8Length(MkcolBody(name)) == |MkcolBody(name)|
  {
    var path := CollectionPath(b, encode, email, name);
    PathNoCR(b, encode, email, name);
    RequestFraming(path, b.host, EffectivePort(b), auth, MkcolBody(name));
    MkcolBodyOfSafeName(name);
  }
}
