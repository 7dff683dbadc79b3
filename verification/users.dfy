/** The stored user (`User`), the corporate inbox the mail provider hands
    out, and the temporary passwords both registration and import draw.
    The repository is a map from the login address to the record. */
module Users {
  import opened Wrappers
  import opened JavaString
  import WelcomeEmail

  /** `User`; `deletedAt` and `lastLoginAt` are clock readings. */
  datatype User = User(
    email: string, password: string, personalEmail: string,
    firstName: Option<string>, lastName: Option<string>, phone: Option<string>,
    telegram: Option<string>, department: Option<string>, role: string,
    emailProviderId: string, emailPassword: string,
    calendarProviderId: string, calendarPassword: string,
    isActive: bool, isPasswordChanged: bool,
    lastLoginAt: Option<int>, deletedAt: Option<int>)

  /** `UserRepository`, keyed by the login address. */
  type Store = map<string, User>

  /** `findByEmailAndDeletedAtIsNull`: deleted users are not found. */
  function FindLive(store: Store, email: string): (r: Option<User>)
    ensures r.Some? <==> email in store && store[email].deletedAt.None?
    ensures r.Some? ==> r.value == store[email]
  {
    if email in store && store[email].deletedAt.None? then Some(store[email]) else None
  }

  /** `MailSlurpInboxResponse`: the inbox id and its address. */
  datatype Inbox = Inbox(id: string, emailAddress: string)

  /** What onboarding needs from outside: the password encoder, the
      mailer (its failure message, or `None` when the letter went out), the
      sender address and the public CalDAV base address. */
  datatype Env = Env(encode: string -> string, send: WelcomeEmail.Mail -> Option<string>, from: string,
                     calendarBase: string)

  // ------------------------------------------------------------ passwords

  /** A value of `random.nextInt(62)`. */
  type Draw = i: int | 0 <= i < 62

  /** Twelve draws, one per password character. */
  type Draws = s: seq<Draw> | |s| == 12 witness [0, 0, 0, 0, 0, 0, 0, 0, 0, 0, 0, 0]

  /** Character `i` of "ABC…Zabc…z012…9". */
  function AlphabetChar(i: Draw): (c: char)
    ensures IsAsciiAlnum(c)
  {
    if i < 26 then ('A' as int + i) as char
    else if i < 52 then ('a' as int + (i - 26)) as char
    else ('0' as int + (i - 52)) as char
  }

  /** The position of a letter or digit in the alphabet. */
  function DrawOf(c: char): (i: Draw)
    requires IsAsciiAlnum(c)
    ensures AlphabetChar(i) == c
  {
    if IsAsciiUpper(c) then c as int - 'A' as int
    else if IsAsciiLower(c) then 26 + (c as int - 'a' as int)
    else 52 + (c as int - '0' as int)
  }

  /** Every character of the alphabet appears once: distinct draws give
      distinct characters. */
  lemma {:induction false} AlphabetDistinct(i: Draw, j: Draw)
    ensures AlphabetChar(i) == AlphabetChar(j) <==> i == j
  {
  }

  /** `generateTempPassword`: twelve characters, each the alphabet's
      character at the corresponding draw. */
  function TempPassword(draws: Draws): (r: string)
    ensures |r| == 12
    ensures forall k :: 0 <= k < 12 ==> r[k] == AlphabetChar(draws[k])
  {
    seq(12, k requires 0 <= k < 12 => AlphabetChar(draws[k]))
  }

  /** The passwords drawn are exactly the twelve-character strings of
      ASCII letters and digits. */
  lemma {:induction false} TempPasswordShape(draws: Draws)
    ensures var p := TempPassword(draws);
      |p| == 12 && forall k :: 0 <= k < |p| ==> IsAsciiAlnum(p[k])
  {
  }

  function DrawsFor(p: string): (d: Draws)
    requires |p| == 12 && forall k :: 0 <= k < |p| ==> IsAsciiAlnum(p[k])
    ensures forall k :: 0 <= k < 12 ==> AlphabetChar(d[k]) == p[k]
  {
    seq(12, k requires 0 <= k < 12 => DrawOf(p[k]))
  }

  /** Every such string is drawn by exactly one sequence of draws. */
  lemma {:induction false} TempPasswordReachesEvery(p: string, draws: Draws)
    requires |p| == 12 && forall k :: 0 <= k < |p| ==> IsAsciiAlnum(p[k])
    ensures TempPassword(DrawsFor(p)) == p
    ensures TempPassword(draws) == p <==> draws == DrawsFor(p)
  {
    var q := DrawsFor(p);
    assert TempPassword(q) == p;
    if TempPassword(draws) == p {
      forall k | 0 <= k < 12 ensures draws[k] == q[k] {
        AlphabetDistinct(draws[k], q[k]);
        assert AlphabetChar(draws[k]) == TempPassword(draws)[k];
      }
      assert draws == q;
    }
  }
}
