/** The two welcome letters (`UserWelcomeEmailService`): the sign-in letter
    to the corporate inbox and the access letter to the personal address,
    with the CalDAV address of the user's calendar. The mailer is a
    function from the prepared message to the failure it raises, if any. */
module WelcomeEmail {
  import opened Wrappers
  import opened JavaString
  import CalendarName
  import Provisioning

  /** A `SimpleMailMessage`. */
  datatype Mail = Mail(from: string, to: string, subject: string, text: string)

  // ------------------------------------------------------------ greeting

  /** The name the letters greet: the first name, or "Коллега" when it is
      missing or empty. */
  function GreetingName(firstName: Option<string>): (r: string)
    ensures r != []
    ensures firstName.Some? && firstName.value != [] <==> r == firstName.GetOr([]) && r != []
    ensures firstName.None? || firstName == Some([]) ==> r == "Коллега"
  {
    if firstName.Some? && firstName.value != [] then firstName.value else "Коллега"
  }

  // ------------------------------------------------------------ calendar address

  /** The characters `[a-z0-9\s-]` keeps: lower-case letters only, since
      the letter lower-cases first. */
  predicate IsLowerNameChar(c: char) {
    IsAsciiLower(c) || IsAsciiDigit(c) || IsRegexSpace(c) || c == '-'
  }

  /** `replaceAll("[^a-z0-9\\s-]", "")`. */
  function KeepLowerNameChars(s: string): (r: string)
    ensures forall k :: 0 <= k < |r| ==> IsLowerNameChar(r[k])
    ensures (forall k :: 0 <= k < |s| ==> IsLowerNameChar(s[k])) ==> r == s
    ensures (forall k :: 0 <= k < |s| ==> !IsLowerNameChar(s[k])) ==> r == []
  {
    if s == [] then []
    else (if IsLowerNameChar(s[0]) then [s[0]] else []) + KeepLowerNameChars(s[1..])
  }

  lemma {:induction false} KeepLowerConcat(a: string, b: string)
    ensures KeepLowerNameChars(a + b) == KeepLowerNameChars(a) + KeepLowerNameChars(b)
    decreases |a|
  {
    if a == [] {
      assert a + b == b;
    } else {
      assert (a + b)[0] == a[0] && (a + b)[1..] == a[1..] + b;
      KeepLowerConcat(a[1..], b);
    }
  }

  /** The label the letter derives the calendar from: "<first name>'s
      Calendar", with "Work" for a missing or empty first name. */
  function Label(firstName: Option<string>): string {
    (if firstName.Some? && firstName.value != [] then firstName.value else "Work") + CalendarName.Possessive
  }

  /** The calendar segment of the letter's address, as written: lower-case
      the label, keep `[a-z0-9\s-]`, turn whitespace runs into "-". There
      is no transliteration and no "calendar" fallback. */
  function Segment(firstName: Option<string>): string {
    CalendarName.HyphenateSpaces(KeepLowerNameChars(ToLower(Label(firstName))))
  }

  /** `buildFullCalendarUrl` as written. */
  function FullCalendarUrl(base: string, calendarEmail: string, firstName: Option<string>): string {
    base + "/" + calendarEmail + "/" + Segment(firstName) + "/"
  }

  /** The address with the calendar name the provisioner actually creates. */
  function CalendarUrl(base: string, calendarEmail: string, firstName: Option<string>): string {
    base + "/" + calendarEmail + "/" + CalendarName.ForUser(firstName) + "/"
  }

  /** The corrected address names the collection `createCalendar` makes
      for the same user, whatever the MKCOL exchange gave. */
  lemma {:induction false} CalendarUrlNamesProvisionedCalendar(b: Provisioning.BaseUrl, email: string, firstName: Option<string>,
                                            reply: Provisioning.MkcolReply)
    ensures var account := Provisioning.CreateCalendar(email, firstName, reply);
      CalendarUrl(Provisioning.BaseText(b), email, firstName)
        == Provisioning.BaseText(b) + "/" + account.username + "/" + account.calendarId + "/"
  {
  }

  // --------------------------------------- where the two segments agree

  lemma {:induction false} LowerKeepsSpace(c: char)
    ensures IsRegexSpace(LowerChar(c)) <==> IsRegexSpace(c)
  {
  }

  lemma {:induction false} SkipLower(x: string)
    ensures SkipRegexSpace(ToLower(x)) == ToLower(SkipRegexSpace(x))
    decreases |x|
  {
    if x != [] {
      LowerKeepsSpace(x[0]);
      if IsRegexSpace(x[0]) {
        assert ToLower(x)[1..] == ToLower(x[1..]);
        SkipLower(x[1..]);
      }
    }
  }

  /** Lower-casing and hyphenating commute. */
  lemma {:induction false} HyphenateLower(x: string)
    ensures CalendarName.HyphenateSpaces(ToLower(x)) == ToLower(CalendarName.HyphenateSpaces(x))
    decreases |x|
  {
    if x != [] {
      var lx := ToLower(x);
      LowerKeepsSpace(x[0]);
      if IsRegexSpace(x[0]) {
        var rest := SkipRegexSpace(x);
        assert |rest| < |x|;
        SkipLower(x);
        HyphenateLower(rest);
        CalendarName.HyphenateAtSpace(x);
        CalendarName.HyphenateAtSpace(lx);
        ToLowerConcat("-", CalendarName.HyphenateSpaces(rest));
      } else {
        HyphenateLower(x[1..]);
        CalendarName.HyphenateAtWord(x);
        CalendarName.HyphenateAtWord(lx);
        assert lx[1..] == ToLower(x[1..]);
        ToLowerConcat([x[0]], CalendarName.HyphenateSpaces(x[1..]));
      }
    }
  }

  /** Below the Cyrillic block, keeping `[a-z0-9\s-]` after lower-casing
      keeps what `[a-zA-Z0-9\s-]` keeps, lower-cased. */
  lemma {:induction false} KeepLowerOfLower(s: string)
    requires CalendarName.BelowCyrillic(s)
    ensures KeepLowerNameChars(ToLower(s)) == ToLower(CalendarName.KeepNameChars(s))
    decreases |s|
  {
    if s != [] {
      var ls := ToLower(s);
      assert ls[1..] == ToLower(s[1..]);
      KeepLowerOfLower(s[1..]);
      var head := if CalendarName.IsNameChar(s[0]) then [s[0]] else [];
      ToLowerConcat(head, CalendarName.KeepNameChars(s[1..]));
    }
  }

  /** A leading apostrophe is dropped by the name filter. */
  lemma {:induction false} QuoteDropped(t: string)
    requires forall k :: 0 <= k < |t| ==> CalendarName.IsNameChar(t[k])
    ensures CalendarName.KeepNameChars("'" + t) == t
  {
    assert ("'" + t)[1..] == t;
  }

  /** Two words, kept as they are and joined by a hyphen. */
  lemma {:induction false} HyphenateTwoWords(w1: string, w2: string)
    requires w1 != [] && w2 != []
    requires forall k :: 0 <= k < |w1| ==> IsAsciiAlnum(w1[k])
    requires forall k :: 0 <= k < |w2| ==> IsAsciiAlnum(w2[k])
    ensures CalendarName.HyphenateSpaces(w1 + " " + w2) == w1 + "-" + w2
  {
    AlnumHasNoSpace(w1);
    AlnumHasNoSpace(w2);
    CalendarName.HyphenateOneSpace(w1, w2);
  }

  /** Letters and digits hold no whitespace, so hyphenating keeps them. */
  lemma {:induction false} AlnumHasNoSpace(w: string)
    requires forall k :: 0 <= k < |w| ==> IsAsciiAlnum(w[k])
    ensures forall k :: 0 <= k < |w| ==> !IsRegexSpace(w[k])
    ensures CalendarName.HyphenateSpaces(w) == w
  {
    forall k | 0 <= k < |w| ensures !IsRegexSpace(w[k]) {
      assert IsAsciiAlnum(w[k]);
    }
  }

  /** A single word of letters and digits passes the filters unchanged. */
  lemma {:induction false} WordKept(w: string)
    requires forall k :: 0 <= k < |w| ==> IsAsciiAlnum(w[k])
    ensures CalendarName.HyphenateSpaces(CalendarName.KeepNameChars(w)) == w
  {
    assert forall k :: 0 <= k < |w| ==> CalendarName.IsNameChar(w[k]);
    assert CalendarName.KeepNameChars(w) == w;
    AlnumHasNoSpace(w);
  }

  /** What the filters leave of "'s Calendar": "s Calendar" once the
      apostrophe is dropped, "s-Calendar" once the space is hyphenated. */
  const PossessiveKept := "s" + " " + "Calendar"
  const Slug := "s" + "-" + "Calendar"

  /** "Work Calendar" after hyphenating. */
  const WorkSlug := "Work" + "-" + "Calendar"

  lemma {:induction false} PossessiveBelowCyrillic()
    ensures CalendarName.BelowCyrillic(CalendarName.Possessive)
  {
  }

  lemma {:induction false} PossessiveFiltered()
    ensures CalendarName.KeepNameChars(CalendarName.Possessive) == PossessiveKept
  {
    TwoWordsNameChars("s", "Calendar");
    QuoteDropped("s" + " " + "Calendar");
  }

  /** Two words of letters and digits around a space pass the name
      filter. */
  lemma {:induction false} TwoWordsNameChars(w1: string, w2: string)
    requires forall k :: 0 <= k < |w1| ==> IsAsciiAlnum(w1[k])
    requires forall k :: 0 <= k < |w2| ==> IsAsciiAlnum(w2[k])
    ensures forall k :: 0 <= k < |w1 + " " + w2| ==> CalendarName.IsNameChar((w1 + " " + w2)[k])
  {
    var t := w1 + " " + w2;
    forall k | 0 <= k < |t| ensures CalendarName.IsNameChar(t[k]) {
      if k < |w1| {
        assert t[k] == w1[k];
      } else if k > |w1| {
        assert t[k] == w2[k - |w1| - 1];
      }
    }
  }

  lemma {:induction false} PossessiveHyphenated()
    ensures CalendarName.HyphenateSpaces(PossessiveKept) == Slug
  {
    HyphenateTwoWords("s", "Calendar");
  }

  lemma {:induction false} BelowConcat(a: string, b: string)
    requires CalendarName.BelowCyrillic(a)
    requires CalendarName.BelowCyrillic(b)
    ensures CalendarName.BelowCyrillic(a + b)
  {
    assert forall k :: 0 <= k < |a + b| ==> (a + b)[k] == if k < |a| then a[k] else b[k - |a|];
  }

  /** Below the Cyrillic block sanitising is filtering, hyphenating and
      lower-casing, once the result is long enough. */
  lemma {:induction false} SanitizeBelowCyrillic(s: string, h: string)
    requires CalendarName.BelowCyrillic(s)
    requires h == CalendarName.HyphenateSpaces(CalendarName.KeepNameChars(s)) && |h| >= 2
    ensures CalendarName.Sanitize(s) == ToLower(h)
  {
    CalendarName.TransliterateKeepsLatin(s);
  }

  /** Filtering and hyphenating a name followed by a suffix that starts
      with a kept, non-space character. */
  lemma {:induction false} FilterConcat(a: string, b: string, bk: string, bh: string)
    requires bk == CalendarName.KeepNameChars(b) && bk != [] && !IsRegexSpace(bk[0])
    requires bh == CalendarName.HyphenateSpaces(bk)
    ensures CalendarName.HyphenateSpaces(CalendarName.KeepNameChars(a + b))
      == CalendarName.HyphenateSpaces(CalendarName.KeepNameChars(a)) + bh
  {
    CalendarName.KeepNameCharsConcat(a, b);
    CalendarName.HyphenateConcat(CalendarName.KeepNameChars(a), bk);
  }

  /** The provisioned name of a user whose first name is written below the
      Cyrillic block: the filtered name `h` followed by "s-Calendar",
      lower-cased. */
  lemma {:induction false} ForUserBelowCyrillic(name: string, h: string)
    requires name != []
    requires CalendarName.BelowCyrillic(name)
    requires h == CalendarName.HyphenateSpaces(CalendarName.KeepNameChars(name))
    ensures CalendarName.ForUser(Some(name)) == ToLower(h + Slug)
  {
    var p := CalendarName.Possessive;
    PossessiveBelowCyrillic();
    PossessiveFiltered();
    PossessiveHyphenated();
    BelowConcat(name, p);
    FilterConcat(name, p, PossessiveKept, Slug);
    SanitizeBelowCyrillic(name + p, h + Slug);
  }

  /** For a first name written below the Cyrillic block (Latin names in
      particular) the letter's address names the provisioned calendar. */
  lemma {:induction false} SegmentAgreesBelowCyrillic(name: string)
    requires name != []
    requires CalendarName.BelowCyrillic(name)
    ensures Segment(Some(name)) == CalendarName.ForUser(Some(name))
  {
    var p := CalendarName.Possessive;
    var s := name + p;
    PossessiveBelowCyrillic();
    PossessiveFiltered();
    PossessiveHyphenated();
    BelowConcat(name, p);
    assert Label(Some(name)) == s;
    KeepLowerOfLower(s);
    HyphenateLower(CalendarName.KeepNameChars(s));
    ForUserBelowCyrillic(name, CalendarName.HyphenateSpaces(CalendarName.KeepNameChars(name)));
    FilterConcat(name, p, PossessiveKept, Slug);
  }

  /** The provisioned name for a user without a first name, before
      lower-casing: "Work-Calendar". */
  lemma {:induction false} WorkCalendarName()
    ensures CalendarName.ForUser(None) == ToLower(WorkSlug)
  {
    var t := CalendarName.WorkCalendar;
    assert CalendarName.Label(None) == t;
    assert forall k :: 0 <= k < |t| ==> CalendarName.IsNameChar(t[k]) && t[k] < '\U{0400}';
    HyphenateTwoWords("Work", "Calendar");
    SanitizeBelowCyrillic(t, WorkSlug);
  }

  /** As written, the letter to a user without a first name gives the
      calendar of a user named "Work": "works-calendar". */
  lemma {:induction false} SegmentWithoutName()
    ensures Segment(None) == CalendarName.ForUser(Some("Work"))
    ensures Segment(None) == ToLower("Work" + Slug)
  {
    assert Label(None) == Label(Some("Work"));
    SegmentOfWord("Work");
  }

  /** The segment for a first name that is one word of Latin letters and
      digits. */
  lemma {:induction false} SegmentOfWord(w: string)
    requires w != [] && forall k :: 0 <= k < |w| ==> IsAsciiAlnum(w[k])
    ensures Segment(Some(w)) == CalendarName.ForUser(Some(w))
    ensures Segment(Some(w)) == ToLower(w + Slug)
  {
    AlnumBelowCyrillic(w);
    SegmentAgreesBelowCyrillic(w);
    WordKept(w);
    ForUserBelowCyrillic(w, w);
  }

  lemma {:induction false} AlnumBelowCyrillic(w: string)
    requires forall k :: 0 <= k < |w| ==> IsAsciiAlnum(w[k])
    ensures CalendarName.BelowCyrillic(w)
  {
    forall k | 0 <= k < |w| ensures w[k] < '\U{0400}' {
      assert IsAsciiAlnum(w[k]);
    }
  }

  /** As written, a user without a first name is sent the address of a
      calendar that is never created: "works-calendar" against
      "work-calendar". */
  lemma {:induction false} WelcomeUrlMissesCalendar(base: string, email: string)
    ensures FullCalendarUrl(base, email, None) != CalendarUrl(base, email, None)
  {
    SegmentWithoutName();
    WorkCalendarName();
    assert |Segment(None)| == 14 && |CalendarName.ForUser(None)| == 13;
  }

  /** As written, a first name in Cyrillic disappears from the address:
      every such user is sent the segment "s-calendar". */
  lemma {:induction false} SegmentDropsCyrillic(name: string)
    requires name != []
    requires forall k :: 0 <= k < |name| ==> '\U{0400}' <= name[k] <= '\U{045F}'
    ensures Segment(Some(name)) == ToLower(Slug)
  {
    var ln, p := ToLower(name), CalendarName.Possessive;
    assert Label(Some(name)) == name + p;
    ToLowerConcat(name, p);
    KeepLowerConcat(ln, ToLower(p));
    CyrillicLeavesNothing(name);
    assert [] + KeepLowerNameChars(ToLower(p)) == KeepLowerNameChars(ToLower(p));
    PossessiveSegment();
  }

  /** The letter's filter removes every lower-cased Cyrillic letter. */
  lemma {:induction false} CyrillicLeavesNothing(name: string)
    requires forall k :: 0 <= k < |name| ==> '\U{0400}' <= name[k] <= '\U{045F}'
    ensures KeepLowerNameChars(ToLower(name)) == []
  {
    var ln := ToLower(name);
    forall k | 0 <= k < |ln| ensures !IsLowerNameChar(ln[k]) {
      CyrillicLowerDropped(name[k]);
    }
  }

  /** A Cyrillic letter stays Cyrillic when lower-cased, so the filter
      drops it. */
  lemma {:induction false} CyrillicLowerDropped(c: char)
    requires '\U{0400}' <= c <= '\U{045F}'
    ensures !IsLowerNameChar(LowerChar(c))
  {
    assert '\U{0400}' <= LowerChar(c) <= '\U{045F}';
  }

  /** "'s Calendar" becomes "s-calendar" in the letter's address. */
  lemma {:induction false} PossessiveSegment()
    ensures CalendarName.HyphenateSpaces(KeepLowerNameChars(ToLower(CalendarName.Possessive))) == ToLower(Slug)
  {
    PossessiveBelowCyrillic();
    PossessiveFiltered();
    PossessiveHyphenated();
    KeepLowerOfLower(CalendarName.Possessive);
    HyphenateLower(PossessiveKept);
  }

  // ------------------------------------------------------------ the letters

  // The fixed lines and labels of the letters.
  const Hello := "Здравствуйте, "
  const EmailLabel := "Email: "
  const Added := "Вы были добавлены в систему Business Assistant."
  const SignInHeading := "Данные для входа в систему:"
  const SignInLabel := "Email для входа: "
  const TempPasswordLabel := "Временный пароль: "
  const ChangePasswordNote := "ВАЖНО: При первом входе вам необходимо сменить пароль."
  const Created := "Вам была создана корпоративная почта и календарь в системе Business Assistant."
  const MailboxHeading := "Данные для доступа к корпоративной почте (MailSlurp):"
  const ImapServer := "IMAP сервер: imap.mailslurp.com"
  const ImapPort := "IMAP порт: 993 (SSL)"
  const CalendarHeading := "Данные для доступа к календарю (Radicale/CalDAV):"
  const UrlLabel := "CalDAV URL: "
  const UsernameLabel := "Email (Username): "
  const PasswordLabel := "Пароль: "
  const ConnectHowTo := "Для подключения календаря к вашему календарному приложению (например, Thunderbird, Apple Calendar, Google Calendar):"
  const Step1 := "1. Добавьте новый CalDAV календарь"
  const Step2 := "2. Укажите URL: "
  const Step3 := "3. Используйте Username: "
  const Step4 := "4. Используйте пароль: "
  const LocalNote := "Примечание: Если календарь развернут локально (через Docker), используйте внутренний адрес:"
  const ProxyNote := "Для внешнего доступа настройте прокси или используйте публичный URL календаря."
  const VideoHeading := "Видеовстречи (Jitsi Meet):"
  const VideoService := "Для участия в видеовстречах используйте сервис Jitsi Meet."
  const VideoLinks := "Ссылки на встречи будут автоматически добавляться в события календаря."
  const VideoNoSignUp := "Регистрация не требуется - просто перейдите по ссылке из календаря."
  const VideoAddress := "Сервис доступен по адресу: https://meet.jit.si"

  const SignOff := "С уважением,"
  const Team := "Команда Business Assistant"

  /** `buildSystemLoginEmailBody`, line by line. */
  function LoginLines(firstName: Option<string>, corporateEmail: string, tempPassword: string): (r: seq<string>)
    ensures |r| == 12
  {
    [Hello + GreetingName(firstName) + "!", "",
     Added, "",
     SignInHeading,
     SignInLabel + corporateEmail,
     TempPasswordLabel + tempPassword, "",
     ChangePasswordNote, "",
     SignOff, Team]
  }

  function LoginBody(firstName: Option<string>, corporateEmail: string, tempPassword: string): string {
    TextBlock(LoginLines(firstName, corporateEmail, tempPassword))
  }

  /** The sign-in letter greets the user and carries the sign-in address
      and the temporary password. */
  lemma {:induction false} LoginBodyCarriesCredentials(firstName: Option<string>, corporateEmail: string, tempPassword: string)
    ensures var body := LoginBody(firstName, corporateEmail, tempPassword);
      && StartsWith(body, Hello + GreetingName(firstName) + "!\n")
      && Contains(body, corporateEmail) && Contains(body, tempPassword)
  {
    var lines := LoginLines(firstName, corporateEmail, tempPassword);
    LineShows(lines, 5, SignInLabel, corporateEmail);
    LineShows(lines, 6, TempPasswordLabel, tempPassword);
  }

  /** `buildCorporateEmailAccessEmailBody`, in three parts: the greeting
      with the mailbox access, the calendar access, and the closing notes
      with the internal calendar address built from `segment`. */
  function MailboxLines(name: string, corporateEmail: string, emailPassword: string): (r: seq<string>)
    ensures |r| == 10
  {
    [Hello + name + "!", "",
     Created, "",
     MailboxHeading,
     EmailLabel + corporateEmail,
     PasswordLabel + emailPassword,
     ImapServer,
     ImapPort, ""]
  }

  function CalendarLines(url: string, calendarEmail: string, calendarPassword: string): (r: seq<string>)
    ensures |r| == 10
  {
    [CalendarHeading,
     UrlLabel + url,
     UsernameLabel + calendarEmail,
     PasswordLabel + calendarPassword, "",
     ConnectHowTo,
     Step1,
     Step2 + url,
     Step3 + calendarEmail,
     Step4 + calendarPassword]
  }

  /** The address inside the container network, hard-wired in the letter. */
  function InternalUrl(calendarEmail: string, segment: string): string {
    "http://calendar:5232/" + calendarEmail + "/" + segment + "/"
  }

  function ClosingLines(calendarEmail: string, segment: string): (r: seq<string>)
    ensures |r| == 14
  {
    ["", LocalNote,
     InternalUrl(calendarEmail, segment), "",
     ProxyNote, "",
     VideoHeading,
     VideoService,
     VideoLinks,
     VideoNoSignUp,
     VideoAddress, "",
     SignOff, Team]
  }

  /** The text block of the three parts, one after the other. */
  function AccessBody(name: string, corporateEmail: string, emailPassword: string, url: string,
                      calendarEmail: string, calendarPassword: string, segment: string): string {
    TextBlock(MailboxLines(name, corporateEmail, emailPassword))
      + TextBlock(CalendarLines(url, calendarEmail, calendarPassword))
      + TextBlock(ClosingLines(calendarEmail, segment))
  }

  /** A text found in any of three parts is found in the whole. */
  lemma {:induction false} ContainsInParts(a: string, b: string, c: string, pat: string)
    requires Contains(a, pat) || Contains(b, pat) || Contains(c, pat)
    ensures Contains(a + b + c, pat)
  {
    if Contains(a, pat) {
      ContainsConcat(a, b, pat);
      ContainsConcat(a + b, c, pat);
    } else if Contains(b, pat) {
      ContainsConcat(b, a, pat);
      ContainsConcat(a + b, c, pat);
    } else {
      ContainsConcat(c, a + b, pat);
    }
  }

  lemma {:induction false} StartsWithParts(a: string, b: string, c: string, p: string)
    requires StartsWith(a, p)
    ensures StartsWith(a + b + c, p)
  {
    assert (a + b + c)[..|p|] == a[..|p|];
  }

  /** The first part greets the user and gives the mailbox and its
      password. */
  lemma {:induction false} MailboxShows(name: string, corporateEmail: string, emailPassword: string)
    ensures var a := TextBlock(MailboxLines(name, corporateEmail, emailPassword));
      && StartsWith(a, Hello + name + "!\n")
      && Contains(a, corporateEmail) && Contains(a, emailPassword)
  {
    var lines := MailboxLines(name, corporateEmail, emailPassword);
    LineShows(lines, 5, EmailLabel, corporateEmail);
    LineShows(lines, 6, PasswordLabel, emailPassword);
  }

  /** The second part gives the calendar address, the CalDAV user and its
      password. */
  lemma {:induction false} CalendarShows(url: string, calendarEmail: string, calendarPassword: string)
    ensures var b := TextBlock(CalendarLines(url, calendarEmail, calendarPassword));
      Contains(b, url) && Contains(b, calendarEmail) && Contains(b, calendarPassword)
  {
    var lines := CalendarLines(url, calendarEmail, calendarPassword);
    LineShows(lines, 1, UrlLabel, url);
    LineShows(lines, 2, UsernameLabel, calendarEmail);
    LineShows(lines, 3, PasswordLabel, calendarPassword);
  }

  lemma {:induction false} ClosingShows(calendarEmail: string, segment: string)
    ensures Contains(TextBlock(ClosingLines(calendarEmail, segment)), InternalUrl(calendarEmail, segment))
  {
    LineShows(ClosingLines(calendarEmail, segment), 2, [], InternalUrl(calendarEmail, segment));
  }

  /** The access letter greets the user and gives the mailbox, its
      password, the calendar address, the CalDAV user, its password and
      the internal calendar address. */
  lemma {:induction false} AccessBodyCarriesAccess(name: string, corporateEmail: string, emailPassword: string, url: string,
                                calendarEmail: string, calendarPassword: string, segment: string)
    ensures var body := AccessBody(name, corporateEmail, emailPassword, url, calendarEmail, calendarPassword, segment);
      && StartsWith(body, Hello + name + "!\n")
      && Contains(body, corporateEmail) && Contains(body, emailPassword)
      && Contains(body, url) && Contains(body, calendarEmail) && Contains(body, calendarPassword)
      && Contains(body, InternalUrl(calendarEmail, segment))
  {
    var a := TextBlock(MailboxLines(name, corporateEmail, emailPassword));
    var b := TextBlock(CalendarLines(url, calendarEmail, calendarPassword));
    var c := TextBlock(ClosingLines(calendarEmail, segment));
    MailboxShows(name, corporateEmail, emailPassword);
    CalendarShows(url, calendarEmail, calendarPassword);
    ClosingShows(calendarEmail, segment);
    ContainsInParts(a, b, c, corporateEmail);
    ContainsInParts(a, b, c, emailPassword);
    ContainsInParts(a, b, c, url);
    ContainsInParts(a, b, c, calendarEmail);
    ContainsInParts(a, b, c, calendarPassword);
    ContainsInParts(a, b, c, InternalUrl(calendarEmail, segment));
    StartsWithParts(a, b, c, Hello + name + "!\n");
  }

  // ------------------------------------------------------------ sending

  const LoginSubject := "Добро пожаловать в Business Assistant!"
  const AccessSubject := "Доступ к корпоративной почте Business Assistant"

  /** The letter `sendSystemLoginEmail` prepares. */
  function LoginMail(from: string, corporateEmail: string, tempPassword: string, firstName: Option<string>): Mail {
    Mail(from, corporateEmail, LoginSubject, LoginBody(firstName, corporateEmail, tempPassword))
  }

  /** The access letter for a given calendar address and segment. */
  function AccessMailWith(from: string, personalEmail: string, corporateEmail: string, emailPassword: string,
                          calendarEmail: string, calendarPassword: string, firstName: Option<string>,
                          url: string, segment: string): Mail {
    Mail(from, personalEmail, AccessSubject,
         AccessBody(GreetingName(firstName), corporateEmail, emailPassword, url, calendarEmail, calendarPassword, segment))
  }

  /** The letter `sendCorporateEmailAccessEmail` prepares, as written: its
      addresses use `Segment`. */
  function AccessMailAsWritten(from: string, base: string, personalEmail: string, corporateEmail: string,
                               emailPassword: string, calendarEmail: string, calendarPassword: string,
                               firstName: Option<string>): Mail {
    AccessMailWith(from, personalEmail, corporateEmail, emailPassword, calendarEmail, calendarPassword, firstName,
                   FullCalendarUrl(base, calendarEmail, firstName), Segment(firstName))
  }

  /** The access letter with the name of the calendar the provisioner
      creates. */
  function AccessMail(from: string, base: string, personalEmail: string, corporateEmail: string, emailPassword: string,
                      calendarEmail: string, calendarPassword: string, firstName: Option<string>): Mail {
    AccessMailWith(from, personalEmail, corporateEmail, emailPassword, calendarEmail, calendarPassword, firstName,
                   CalendarUrl(base, calendarEmail, firstName), CalendarName.ForUser(firstName))
  }

  /** The sign-in letter goes to the corporate inbox and carries the
      temporary password. */
  lemma {:induction false} LoginMailCarriesCredentials(from: string, corporateEmail: string, tempPassword: string, firstName: Option<string>)
    ensures var m := LoginMail(from, corporateEmail, tempPassword, firstName);
      && m.from == from && m.to == corporateEmail && m.subject == LoginSubject
      && Contains(m.text, corporateEmail) && Contains(m.text, tempPassword)
  {
    LoginBodyCarriesCredentials(firstName, corporateEmail, tempPassword);
  }

  /** The access letter goes to the personal address and carries both
      passwords, the CalDAV user and the address of the provisioned
      calendar, outside and inside the container network. */
  lemma {:induction false} AccessMailCarriesAccess(from: string, base: string, personalEmail: string, corporateEmail: string,
                                emailPassword: string, calendarEmail: string, calendarPassword: string,
                                firstName: Option<string>)
    ensures var m := AccessMail(from, base, personalEmail, corporateEmail, emailPassword, calendarEmail,
                                calendarPassword, firstName);
      && m.from == from && m.to == personalEmail && m.subject == AccessSubject
      && Contains(m.text, emailPassword) && Contains(m.text, calendarEmail) && Contains(m.text, calendarPassword)
      && Contains(m.text, CalendarUrl(base, calendarEmail, firstName))
      && Contains(m.text, InternalUrl(calendarEmail, CalendarName.ForUser(firstName)))
  {
    AccessBodyCarriesAccess(GreetingName(firstName), corporateEmail, emailPassword, CalendarUrl(base, calendarEmail, firstName),
                            calendarEmail, calendarPassword, CalendarName.ForUser(firstName));
  }

  const LoginFailure := "Не удалось отправить письмо на корпоративную почту: "
  const AccessFailure := "Не удалось отправить письмо на личную почту: "

  /** `sendSystemLoginEmail`: the letter when the mailer accepts it, or
      the mailer's failure rethrown with `LoginFailure` in front. */
  function SendSystemLoginEmail(send: Mail -> Option<string>, from: string, corporateEmail: string,
                                tempPassword: string, firstName: Option<string>): (r: Result<Mail, string>)
    ensures var mail := LoginMail(from, corporateEmail, tempPassword, firstName);
      && (r.Ok? <==> send(mail).None?)
      && (r.Ok? ==> r.value == mail)
      && (r.Err? ==> send(mail).Some? && r.error == LoginFailure + send(mail).value)
  {
    var mail := LoginMail(from, corporateEmail, tempPassword, firstName);
    match send(mail)
    case None => Ok(mail)
    case Some(m) => Err(LoginFailure + m)
  }

  /** `sendCorporateEmailAccessEmail`: the letter when the mailer accepts
      it, or the mailer's failure rethrown with `AccessFailure` in front. */
  function SendAccessEmail(send: Mail -> Option<string>, from: string, base: string, personalEmail: string,
                           corporateEmail: string, emailPassword: string, calendarEmail: string,
                           calendarPassword: string, firstName: Option<string>): (r: Result<Mail, string>)
    ensures var mail := AccessMail(from, base, personalEmail, corporateEmail, emailPassword, calendarEmail,
                                   calendarPassword, firstName);
      && (r.Ok? <==> send(mail).None?)
      && (r.Ok? ==> r.value == mail)
      && (r.Err? ==> send(mail).Some? && r.error == AccessFailure + send(mail).value)
  {
    var mail := AccessMail(from, base, personalEmail, corporateEmail, emailPassword, calendarEmail,
                           calendarPassword, firstName);
    match send(mail)
    case None => Ok(mail)
    case Some(m) => Err(AccessFailure + m)
  }
}
