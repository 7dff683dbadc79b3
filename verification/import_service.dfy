/** Bulk user import (`UserImportService`): every parsed row becomes a
    user with a fresh corporate inbox, a CalDAV calendar and two welcome
    letters; the import log keeps the tally. The mail provider, the
    random draws and the CalDAV reply of each row come from `world`, the
    clock is the `now` parameter. */
module ImportService {
  import opened Wrappers
  import opened JavaString
  import opened Users
  import ImportParser
  import Provisioning
  import CalendarName
  import WelcomeEmail

  // ------------------------------------------------------------ one user

  /** What importing row `i` meets outside: the inbox the mail provider
      creates (or its failure), the draws of the three passwords and the
      reply of the CalDAV server. */
  datatype RowWorld = RowWorld(inbox: Result<Inbox, string>, login: Draws, mailbox: Draws, calendar: Draws,
                               mkcol: Provisioning.MkcolReply)

  const InboxFailure := "Не удалось создать корпоративную почту: "

  const UserWithEmail := "Пользователь с email "
  const AlreadyExists := " уже существует"

  function Duplicate(address: string): string {
    UserWithEmail + address + AlreadyExists
  }

  /** Why importing a row fails, judged by what it met outside: the mail
      provider's failure, or else the address it handed out is taken. */
  function RowFailure(w: RowWorld): string {
    if w.inbox.Err? then InboxFailure + w.inbox.error else Duplicate(w.inbox.value.emailAddress)
  }

  /** `importUser`, up to the saved user. It fails when the inbox cannot
      be created or its address is already taken. */
  function ImportUser(store: Store, env: Env, row: ImportParser.ImportRow, w: RowWorld): (r: Result<User, string>)
    ensures r.Err? <==> w.inbox.Err? || w.inbox.value.emailAddress in store
    ensures w.inbox.Err? ==> r == Err(InboxFailure + w.inbox.error)
    ensures w.inbox.Ok? && w.inbox.value.emailAddress in store ==> r == Err(Duplicate(w.inbox.value.emailAddress))
    ensures r.Err? ==> r.error == RowFailure(w)
    ensures r.Ok? ==>
      var u := r.value;
      && u.email == w.inbox.value.emailAddress && u.personalEmail == row.email
      && u.emailProviderId == w.inbox.value.id
      && u.role == (if row.role.Some? then row.role.value else ImportParser.DefaultRole)
      && u.firstName == row.firstName && u.lastName == row.lastName && u.phone == row.phone
      && u.telegram == row.telegram && u.department == row.department
      && u.isActive && !u.isPasswordChanged && u.lastLoginAt.None? && u.deletedAt.None?
      && u.calendarProviderId == u.email && u.calendarPassword == TempPassword(w.calendar)
      && u.password == env.encode(TempPassword(w.login))
      && u.emailPassword == env.encode(TempPassword(w.mailbox))
  {
    match w.inbox
    case Err(e) => Err(InboxFailure + e)
    case Ok(inbox) =>
      var address := inbox.emailAddress;
      if address in store then Err(Duplicate(address))
      else
        var account := Provisioning.CreateCalendar(address, row.firstName, w.mkcol);
        Ok(User(address, env.encode(TempPassword(w.login)), row.email, row.firstName, row.lastName, row.phone,
                row.telegram, row.department,
                if row.role.Some? then row.role.value else ImportParser.DefaultRole,
                inbox.id, env.encode(TempPassword(w.mailbox)), account.username, TempPassword(w.calendar),
                true, false, None, None))
  }

  /** The two welcome letters `importUser` sends once the user is saved,
      each on its own: whatever becomes of them, the row counts as
      imported. */
  function WelcomeLetters(env: Env, row: ImportParser.ImportRow, w: RowWorld)
    : (Result<WelcomeEmail.Mail, string>, Result<WelcomeEmail.Mail, string>)
    requires w.inbox.Ok?
  {
    var address := w.inbox.value.emailAddress;
    var account := Provisioning.CreateCalendar(address, row.firstName, w.mkcol);
    (WelcomeEmail.SendSystemLoginEmail(env.send, env.from, address, TempPassword(w.login), row.firstName),
     WelcomeEmail.SendAccessEmail(env.send, env.from, env.calendarBase, row.email, address,
                                  TempPassword(w.mailbox), account.email, TempPassword(w.calendar), row.firstName))
  }

  /** The sign-in letter, when it goes out, goes to the new login address
      and carries the password whose encoding is stored; the access letter
      goes to the personal address and carries the stored calendar
      password, the CalDAV user and the corrected calendar address, the
      address of the calendar created (the letter as written names another
      one; see WelcomeEmail.WelcomeUrlMissesCalendar). */
  lemma {:induction false} ImportedUserCanSignIn(store: Store, env: Env, row: ImportParser.ImportRow, w: RowWorld)
    requires ImportUser(store, env, row, w).Ok?
    ensures var u, letters := ImportUser(store, env, row, w).value, WelcomeLetters(env, row, w);
      && env.encode(TempPassword(w.login)) == u.password
      && (letters.0.Ok? ==> letters.0.value.to == u.email && Contains(letters.0.value.text, TempPassword(w.login)))
      && (letters.1.Ok? ==>
            && letters.1.value.to == u.personalEmail
            && Contains(letters.1.value.text, u.calendarPassword)
            && Contains(letters.1.value.text, u.calendarProviderId)
            && Contains(letters.1.value.text, WelcomeEmail.CalendarUrl(env.calendarBase, u.email, row.firstName)))
  {
    var address := w.inbox.value.emailAddress;
    WelcomeEmail.LoginMailCarriesCredentials(env.from, address, TempPassword(w.login), row.firstName);
    WelcomeEmail.AccessMailCarriesAccess(env.from, env.calendarBase, row.email, address, TempPassword(w.mailbox),
                                         address, TempPassword(w.calendar), row.firstName);
  }

  // ------------------------------------------------------------ all rows

  /** What the row loop leaves: the store, the counts and the error lines. */
  datatype Tally = Tally(store: Store, successful: nat, failed: nat, errors: seq<string>)

  /** `String.format("%s: %s", row.email(), message)`. */
  function RowError(row: ImportParser.ImportRow, message: string): string {
    row.email + ": " + message
  }

  lemma {:induction false} AddNewKey(store: Store, key: string, user: User)
    requires key !in store
    ensures |store[key := user].Keys| == |store.Keys| + 1
  {
    assert store[key := user].Keys == store.Keys + {key};
  }

  /** The loop of `processImport`, row `i` onward: every row is either
      counted as imported, adding one new user and touching no existing
      one, or counted as failed with one error line. */
  function ImportRows(store: Store, env: Env, rows: seq<ImportParser.ImportRow>, world: nat -> RowWorld, i: nat)
    : (t: Tally)
    ensures Tallies(store, |rows|, t)
    decreases |rows|
  {
    if rows == [] then Tally(store, 0, 0, [])
    else
      match ImportUser(store, env, rows[0], world(i))
      case Ok(user) =>
        var t := ImportRows(store[user.email := user], env, rows[1..], world, i + 1);
        TallyImported(store, user, |rows[1..]|, t);
        t.(successful := t.successful + 1)
      case Err(message) =>
        var t := ImportRows(store, env, rows[1..], world, i + 1);
        t.(failed := t.failed + 1, errors := [RowError(rows[0], message)] + t.errors)
  }

  /** `errors` holds, in row order, exactly one line `email: message` for
      each row (row `j` meeting `world(i + j)`) that fails: its inbox could
      not be created, or the address handed out is in `taken` (the
      addresses saved before it). A row that succeeds adds its address to
      `taken` and gives no line. */
  predicate ErrorLinesFor(taken: set<string>, rows: seq<ImportParser.ImportRow>, world: nat -> RowWorld, i: nat,
                          errors: seq<string>)
    decreases |rows|
  {
    if rows == [] then errors == []
    else
      var w := world(i);
      if w.inbox.Err? || w.inbox.value.emailAddress in taken then
        && errors != [] && errors[0] == RowError(rows[0], RowFailure(w))
        && ErrorLinesFor(taken, rows[1..], world, i + 1, errors[1..])
      else ErrorLinesFor(taken + {w.inbox.value.emailAddress}, rows[1..], world, i + 1, errors)
  }

  /** The failed rows fix the error lines: at most one list of lines fits. */
  lemma {:induction false} ErrorLinesUnique(taken: set<string>, rows: seq<ImportParser.ImportRow>,
                                            world: nat -> RowWorld, i: nat, errors: seq<string>, errors': seq<string>)
    requires ErrorLinesFor(taken, rows, world, i, errors) && ErrorLinesFor(taken, rows, world, i, errors')
    ensures errors == errors'
    decreases |rows|
  {
    if rows != [] {
      var w := world(i);
      if w.inbox.Err? || w.inbox.value.emailAddress in taken {
        ErrorLinesUnique(taken, rows[1..], world, i + 1, errors[1..], errors'[1..]);
        assert errors == [errors[0]] + errors[1..];
        assert errors' == [errors'[0]] + errors'[1..];
      } else {
        ErrorLinesUnique(taken + {w.inbox.value.emailAddress}, rows[1..], world, i + 1, errors, errors');
      }
    }
  }

  /** The error lines of the row loop are exactly those of its failed
      rows, in row order, each naming the row's email and why it failed. */
  lemma {:induction false} ImportRowsErrorLines(store: Store, env: Env, rows: seq<ImportParser.ImportRow>,
                                                world: nat -> RowWorld, i: nat)
    ensures ErrorLinesFor(store.Keys, rows, world, i, ImportRows(store, env, rows, world, i).errors)
    decreases |rows|
  {
    if rows != [] {
      var w := world(i);
      if w.inbox.Err? || w.inbox.value.emailAddress in store {
        ImportRowsErrorLines(store, env, rows[1..], world, i + 1);
        FailedRowLine(store, env, rows, world, i);
      } else {
        var user := ImportUser(store, env, rows[0], w).value;
        ImportRowsErrorLines(store[user.email := user], env, rows[1..], world, i + 1);
        SavedRowNoLine(store, env, rows, world, i);
      }
    }
  }

  /** A failing row puts its line in front of those of the rows after it. */
  lemma {:induction false} FailedRowLine(store: Store, env: Env, rows: seq<ImportParser.ImportRow>,
                                         world: nat -> RowWorld, i: nat)
    requires rows != [] && (world(i).inbox.Err? || world(i).inbox.value.emailAddress in store)
    ensures var errors, rest := ImportRows(store, env, rows, world, i).errors, ImportRows(store, env, rows[1..], world, i + 1).errors;
      errors != [] && errors[0] == RowError(rows[0], RowFailure(world(i))) && errors[1..] == rest
  {
    var rest := ImportRows(store, env, rows[1..], world, i + 1).errors;
    assert ([RowError(rows[0], RowFailure(world(i)))] + rest)[1..] == rest;
  }

  /** A row that is saved gives no line; the rows after it meet a store
      holding its address. */
  lemma {:induction false} SavedRowNoLine(store: Store, env: Env, rows: seq<ImportParser.ImportRow>,
                                          world: nat -> RowWorld, i: nat)
    requires rows != [] && world(i).inbox.Ok? && world(i).inbox.value.emailAddress !in store
    ensures var user := ImportUser(store, env, rows[0], world(i)).value;
      && store[user.email := user].Keys == store.Keys + {world(i).inbox.value.emailAddress}
      && ImportRows(store, env, rows, world, i).errors
         == ImportRows(store[user.email := user], env, rows[1..], world, i + 1).errors
  {
  }

  /** The tally of `n` rows started from `store`: each row counted once,
      one error line per failure, one new user per success, and no
      existing user touched. */
  predicate Tallies(store: Store, n: nat, t: Tally) {
    && t.successful + t.failed == n
    && |t.errors| == t.failed
    && store.Keys <= t.store.Keys && |t.store.Keys| == |store.Keys| + t.successful
    && forall e :: e in store ==> t.store[e] == store[e]
  }

  /** A user added under a new address counts as one more success of the
      tally started before it. */
  lemma {:induction false} TallyImported(store: Store, user: User, n: nat, t: Tally)
    requires user.email !in store
    requires Tallies(store[user.email := user], n, t)
    ensures Tallies(store, n + 1, t.(successful := t.successful + 1))
  {
    AddNewKey(store, user.email, user);
  }

  /** With a mail provider that always fails, every row fails and the
      store is unchanged. */
  lemma {:induction false} NoInboxNoUsers(store: Store, env: Env, rows: seq<ImportParser.ImportRow>,
                                          world: nat -> RowWorld, i: nat)
    requires forall j :: world(j).inbox.Err?
    ensures var t := ImportRows(store, env, rows, world, i);
      t.successful == 0 && t.failed == |rows| && t.store == store
      && forall k :: 0 <= k < |rows| ==>
           t.errors[k] == RowError(rows[k], InboxFailure + world(i + k).inbox.error)
    decreases |rows|
  {
    if rows != [] {
      NoInboxNoUsers(store, env, rows[1..], world, i + 1);
      assert ImportUser(store, env, rows[0], world(i)) == Err(InboxFailure + world(i).inbox.error);
      var t := ImportRows(store, env, rows, world, i);
      var t' := ImportRows(store, env, rows[1..], world, i + 1);
      assert t == t'.(failed := t'.failed + 1, errors := [RowError(rows[0], InboxFailure + world(i).inbox.error)] + t'.errors);
      assert t.errors == [RowError(rows[0], InboxFailure + world(i).inbox.error)] + t'.errors;
      forall k | 1 <= k < |rows|
        ensures t.errors[k] == RowError(rows[k], InboxFailure + world(i + k).inbox.error)
      {
        assert t.errors[k] == t'.errors[k - 1] && rows[k] == rows[1..][k - 1];
      }
    }
  }

  // ------------------------------------------------------------ status

  const Completed := "COMPLETED"
  const Failed := "FAILED"
  const PartiallyFailed := "PARTIALLY_FAILED"
  const Processing := "PROCESSING"

  /** The final status of an import that read its rows. */
  function ImportStatus(successful: nat, failed: nat): (s: string)
    ensures s in {Completed, Failed, PartiallyFailed}
  {
    if failed == 0 then Completed else if successful == 0 then Failed else PartiallyFailed
  }

  /** COMPLETED exactly when no row failed (an empty file included),
      FAILED exactly when rows failed and none succeeded, PARTIALLY_FAILED
      otherwise. */
  lemma {:induction false} ImportStatusCases(successful: nat, failed: nat)
    ensures ImportStatus(successful, failed) == Completed <==> failed == 0
    ensures ImportStatus(successful, failed) == Failed <==> successful == 0 && failed > 0
    ensures ImportStatus(successful, failed) == PartiallyFailed <==> successful > 0 && failed > 0
  {
  }

  /** `errors.isEmpty() ? null : String.join("\n", errors)`. */
  function ErrorDetails(errors: seq<string>): (r: Option<string>)
    ensures r.None? <==> errors == []
  {
    if errors == [] then None else Some(Join(errors, "\n"))
  }

  /** The error lines can be read back from the details when none of
      them spans lines. */
  lemma {:induction false} ErrorDetailsReadBack(errors: seq<string>)
    requires errors != []
    requires forall k :: 0 <= k < |errors| ==> '\n' !in errors[k]
    ensures ErrorDetails(errors).Some? && SplitRaw(ErrorDetails(errors).value, "\n") == errors
  {
    SplitRawJoin(errors, '\n');
  }

  // ------------------------------------------------------------ the log

  /** `ImportLog`. */
  datatype ImportLog = ImportLog(
    importedBy: string, fileName: Option<string>, fileSizeBytes: int, status: string,
    totalRecords: int, successfulRecords: int, failedRecords: int,
    errorDetails: Option<string>, completedAt: Option<int>)

  /** `ImportLogRepository`, keyed by the log id. */
  type Logs = map<string, ImportLog>

  const LogNotFound := "ImportLog не найден: "

  function LogMissing(id: string): string {
    LogNotFound + id
  }

  /** `updateImportLogStatus`: status and completion time are always set;
      counts and details only when given; nothing else changes. */
  function UpdateImportLogStatus(logs: Logs, id: string, status: string, successful: Option<int>,
                                 failed: Option<int>, errorDetails: Option<string>, now: int)
    : (r: Result<Logs, string>)
    ensures r.Err? <==> id !in logs
    ensures r.Err? ==> r.error == LogMissing(id)
    ensures r.Ok? ==>
      && r.value.Keys == logs.Keys
      && (forall other :: other in logs && other != id ==> r.value[other] == logs[other])
      && var before, after := logs[id], r.value[id];
      && after.status == status && after.completedAt == Some(now)
      && after.successfulRecords == successful.GetOr(before.successfulRecords)
      && after.failedRecords == failed.GetOr(before.failedRecords)
      && after.errorDetails == (if errorDetails.Some? then errorDetails else before.errorDetails)
      && after.totalRecords == before.totalRecords && after.fileName == before.fileName
      && after.importedBy == before.importedBy && after.fileSizeBytes == before.fileSizeBytes
  {
    if id !in logs then Err(LogMissing(id))
    else
      var log := logs[id];
      var log := log.(status := status, completedAt := Some(now));
      var log := if successful.Some? then log.(successfulRecords := successful.value) else log;
      var log := if failed.Some? then log.(failedRecords := failed.value) else log;
      var log := if errorDetails.Some? then log.(errorDetails := errorDetails) else log;
      Ok(logs[id := log])
  }

  /** Updating twice with the same arguments is updating once. */
  lemma {:induction false} UpdateIdempotent(logs: Logs, id: string, status: string, successful: Option<int>, failed: Option<int>,
                         errorDetails: Option<string>, now: int)
    requires id in logs
    ensures var once := UpdateImportLogStatus(logs, id, status, successful, failed, errorDetails, now).value;
      UpdateImportLogStatus(once, id, status, successful, failed, errorDetails, now) == Ok(once)
  {
    var once := UpdateImportLogStatus(logs, id, status, successful, failed, errorDetails, now).value;
    var twice := UpdateImportLogStatus(once, id, status, successful, failed, errorDetails, now).value;
    assert twice[id] == once[id];
    assert twice == once;
  }

  // ------------------------------------------------------------ one import

  const ParseFailure := "Ошибка парсинга файла: "
  const CriticalFailure := "Критическая ошибка: "

  /** Only the log `id` may differ between `before` and `after`. */
  predicate OthersKept(before: Logs, after: Logs, id: string) {
    && after.Keys == before.Keys
    && forall other :: other in before && other != id ==> after[other] == before[other]
  }

  /** The log still describes the same upload. */
  predicate SameUpload(log: ImportLog, before: ImportLog) {
    && log.importedBy == before.importedBy && log.fileName == before.fileName
    && log.fileSizeBytes == before.fileSizeBytes
  }

  /** The log of a file that could not be read: FAILED, no counts, the
      total as it was, and the parser's message. */
  predicate UnreadableLog(log: ImportLog, before: ImportLog, error: string) {
    && log.status == Failed && log.successfulRecords == 0 && log.failedRecords == 0
    && log.totalRecords == before.totalRecords
    && log.errorDetails == Some(ParseFailure + error)
  }

  /** The error details of a log whose rows gave the error lines `errors`:
      the lines joined by newlines, or the details `before` had when no row
      failed. */
  predicate DetailedLog(log: ImportLog, before: ImportLog, errors: seq<string>) {
    log.errorDetails == (if errors == [] then before.errorDetails else ErrorDetails(errors))
  }

  /** The log of `n` rows tried: the counts add up, the status follows
      them, and error details are there exactly when a row failed (kept from
      `before` otherwise). */
  predicate CountedLog(log: ImportLog, before: ImportLog, n: nat) {
    && log.totalRecords == n
    && log.successfulRecords >= 0 && log.failedRecords >= 0
    && log.successfulRecords + log.failedRecords == n
    && log.status == ImportStatus(log.successfulRecords, log.failedRecords)
    && (log.failedRecords == 0 ==> log.errorDetails == before.errorDetails)
    && (log.failedRecords > 0 ==> log.errorDetails.Some?)
  }

  /** `after` holds `store` unchanged and `added` users more. */
  predicate Grown(store: Store, after: Store, added: int) {
    && store.Keys <= after.Keys && |after.Keys| == |store.Keys| + added
    && forall e :: e in store ==> after[e] == store[e]
  }

  /** `processImport`: a file that cannot be read marks the import FAILED
      with no counts and imports nobody; otherwise every row is tried and
      the tally and its status are recorded. */
  function ProcessImport(logs: Logs, id: string, store: Store, env: Env, file: ImportParser.Upload,
                         world: nat -> RowWorld, now: int): (r: Result<(Logs, Store), string>)
    ensures r.Err? <==> id !in logs
    ensures r.Err? ==> r.error == LogMissing(id)
    ensures r.Ok? ==> OthersKept(logs, r.value.0, id) && r.value.0[id].completedAt == Some(now)
    ensures r.Ok? ==> SameUpload(r.value.0[id], logs[id])
    ensures r.Ok? && ImportParser.ParseFile(file).Err? ==>
      r.value.1 == store && UnreadableLog(r.value.0[id], logs[id], ImportParser.ParseFile(file).error)
    ensures r.Ok? && ImportParser.ParseFile(file).Ok? ==>
      && CountedLog(r.value.0[id], logs[id], |ImportParser.ParseFile(file).value|)
      && Grown(store, r.value.1, r.value.0[id].successfulRecords)
      && var errors := ImportRows(store, env, ImportParser.ParseFile(file).value, world, 0).errors;
         && r.value.0[id].failedRecords == |errors|
         && ErrorLinesFor(store.Keys, ImportParser.ParseFile(file).value, world, 0, errors)
         && DetailedLog(r.value.0[id], logs[id], errors)
  {
    Record(logs, id, store, env, ImportParser.ParseFile(file), world, now)
  }

  /** The part of `processImport` after the file has been read, or has
      failed to be. */
  function Record(logs: Logs, id: string, store: Store, env: Env, parsed: Result<seq<ImportParser.ImportRow>, string>,
                  world: nat -> RowWorld, now: int): (r: Result<(Logs, Store), string>)
    ensures r.Err? <==> id !in logs
    ensures r.Err? ==> r.error == LogMissing(id)
    ensures r.Ok? ==> OthersKept(logs, r.value.0, id) && r.value.0[id].completedAt == Some(now)
    ensures r.Ok? ==> SameUpload(r.value.0[id], logs[id])
    ensures r.Ok? && parsed.Err? ==> r.value.1 == store && UnreadableLog(r.value.0[id], logs[id], parsed.error)
    ensures r.Ok? && parsed.Ok? ==>
      && CountedLog(r.value.0[id], logs[id], |parsed.value|)
      && Grown(store, r.value.1, r.value.0[id].successfulRecords)
      && var errors := ImportRows(store, env, parsed.value, world, 0).errors;
         && r.value.0[id].failedRecords == |errors|
         && ErrorLinesFor(store.Keys, parsed.value, world, 0, errors)
         && DetailedLog(r.value.0[id], logs[id], errors)
  {
    if id !in logs then Err(LogMissing(id))
    else
      match parsed
      case Err(e) =>
        var updated := UpdateImportLogStatus(logs, id, Failed, Some(0), Some(0), Some(ParseFailure + e), now);
        Ok((updated.value, store))
      case Ok(rows) =>
        var counted := logs[id := logs[id].(totalRecords := |rows|)];
        var t := ImportRows(store, env, rows, world, 0);
        var updated := UpdateImportLogStatus(counted, id, ImportStatus(t.successful, t.failed),
                                             Some(t.successful), Some(t.failed), ErrorDetails(t.errors), now);
        ImportRowsErrorLines(store, env, rows, world, 0);
        Ok((updated.value, t.store))
  }

  /** `processImportAsync`: a failure of `processImport` is recorded as a
      critical error, but the only failure is a missing log, which the
      recording cannot find either, so nothing changes. */
  function ProcessImportAsync(logs: Logs, id: string, store: Store, env: Env, file: ImportParser.Upload,
                              world: nat -> RowWorld, now: int): (r: (Logs, Store))
    ensures id !in logs ==> r == (logs, store)
    ensures id in logs ==> Ok(r) == ProcessImport(logs, id, store, env, file, world, now)
  {
    match ProcessImport(logs, id, store, env, file, world, now)
    case Ok(v) => v
    case Err(m) =>
      match UpdateImportLogStatus(logs, id, Failed, None, None, Some(CriticalFailure + m), now)
      case Ok(updated) => (updated, store)
      case Err(_) => (logs, store)
  }

  /** `startImport`: a PROCESSING log with zero counts is saved under the
      id the database assigns, then the file is processed (the call from
      inside the class runs in the caller's thread). */
  function StartImport(logs: Logs, id: string, importedBy: string, store: Store, env: Env,
                       file: ImportParser.Upload, fileSizeBytes: int, world: nat -> RowWorld, now: int)
    : (r: (Logs, Store))
    ensures id in r.0 && r.0.Keys == logs.Keys + {id}
    ensures r.0[id].importedBy == importedBy && r.0[id].fileName == file.fileName
    ensures r.0[id].fileSizeBytes == fileSizeBytes && r.0[id].completedAt == Some(now)
    ensures r.0[id].status in {Completed, Failed, PartiallyFailed}
    ensures r.0[id].successfulRecords + r.0[id].failedRecords == r.0[id].totalRecords
  {
    var log := ImportLog(importedBy, file.fileName, fileSizeBytes, Processing, 0, 0, 0, None, None);
    var saved := logs[id := log];
    ProcessImportAsync(saved, id, store, env, file, world, now)
  }
}
