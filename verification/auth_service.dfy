/** Accounts (`AuthService`): registration of the first user (the
    administrator), sign-in, token refresh and password change over the
    user store. Password hashing, the authentication manager and the
    token service are parameters; every outcome is a value. */
module AuthService {
  import opened Wrappers
  import opened Users
  import opened JavaString
  import Provisioning
  import WelcomeEmail

  /** The exception each failure raises, with its message. */
  datatype AuthError =
    | AlreadyExists(message: string)
    | Runtime(message: string)
    | BadCredentials(message: string)
    | NotFound(message: string)
    | Unsupported(message: string)

  /** The token service: tokens are made from the stored user (its address,
      id and role); `parse` gives a token's subject and whether it is a
      refresh token, or fails. */
  datatype Jwt = Jwt(access: User -> string, refresh: User -> string, parse: string -> Result<Claims, string>)

  datatype Claims = Claims(subject: string, isRefresh: bool)

  const AdminRole := "ADMIN"

  // ------------------------------------------------------------ register

  datatype RegisterRequest = RegisterRequest(email: string, password: string, firstName: Option<string>,
                                             lastName: Option<string>)

  /** What registering meets outside: the inbox the mail provider creates
      (or its failure), the draws of the mailbox and calendar passwords
      and the CalDAV server's reply. */
  datatype Provisioned = Provisioned(inbox: Result<Inbox, string>, mailbox: Draws, calendar: Draws,
                                     mkcol: Provisioning.MkcolReply)

  datatype RegisterResponse = RegisterResponse(email: string, firstName: Option<string>, lastName: Option<string>,
                                               token: string, refreshToken: string)

  function Taken(email: string): string {
    "Пользователь с email " + email + " уже существует"
  }

  const FirstUserOnly := "Регистрация через /register доступна только для первого пользователя (админа). " +
                         "Новые пользователи должны добавляться через импорт пользователей."

  const AdminInboxFailure := "Не удалось создать корпоративную почту для первого пользователя (админа): "

  /** The administrator `register` saves. */
  function Admin(env: Env, req: RegisterRequest, inbox: Inbox, p: Provisioned): (u: User) {
    var account := Provisioning.CreateCalendar(inbox.emailAddress, req.firstName, p.mkcol);
    User(inbox.emailAddress, env.encode(req.password), req.email, req.firstName, req.lastName, None, None, None,
         AdminRole, inbox.id, env.encode(TempPassword(p.mailbox)), account.username, TempPassword(p.calendar),
         true, false, None, None)
  }

  /** `register`: a taken address, or any user already stored, refuses
      the request before anything is provisioned; a failed inbox aborts
      it; otherwise the administrator is saved under the new corporate
      address and receives tokens. The calendar step cannot fail, as
      `createCalendar` catches everything. */
  function Register(store: Store, env: Env, jwt: Jwt, req: RegisterRequest, p: Provisioned)
    : (r: Result<(RegisterResponse, Store), AuthError>)
    ensures req.email in store ==> r == Err(AlreadyExists(Taken(req.email)))
    ensures r.Ok? <==> store == map[] && p.inbox.Ok?
    ensures req.email !in store && store != map[] ==> r == Err(Runtime(FirstUserOnly))
    ensures store == map[] && p.inbox.Err? ==> r == Err(Runtime(AdminInboxFailure + p.inbox.error))
    ensures r.Ok? ==>
      var (response, after) := r.value;
      var u := Admin(env, req, p.inbox.value, p);
      && after == map[u.email := u]
      && u.role == AdminRole && u.isActive && !u.isPasswordChanged
      && u.email == p.inbox.value.emailAddress && u.personalEmail == req.email
      && u.password == env.encode(req.password)
      && u.calendarProviderId == u.email && |u.calendarPassword| == 12
      && response == RegisterResponse(u.email, req.firstName, req.lastName, jwt.access(u), jwt.refresh(u))
  {
    if req.email in store then Err(AlreadyExists(Taken(req.email)))
    else if store != map[] then Err(Runtime(FirstUserOnly))
    else
      match p.inbox
      case Err(e) => Err(Runtime(AdminInboxFailure + e))
      case Ok(inbox) =>
        var u := Admin(env, req, inbox, p);
        Ok((RegisterResponse(u.email, req.firstName, req.lastName, jwt.access(u), jwt.refresh(u)), map[u.email := u]))
  }

  /** Registration is open once: after a successful one, every later
      request is refused and changes nothing. */
  lemma {:induction false} RegisterOnlyOnce(store: Store, env: Env, jwt: Jwt, req: RegisterRequest, p: Provisioned,
                         req2: RegisterRequest, p2: Provisioned)
    requires Register(store, env, jwt, req, p).Ok?
    ensures Register(Register(store, env, jwt, req, p).value.1, env, jwt, req2, p2).Err?
  {
    var after := Register(store, env, jwt, req, p).value.1;
    var u := Admin(env, req, p.inbox.value, p);
    assert u.email in after;
  }

  /** The letters `register` sends once the administrator is saved, each
      on its own: the sign-in letter carries the password the user chose. */
  function RegistrationLetters(env: Env, req: RegisterRequest, p: Provisioned)
    : (Result<WelcomeEmail.Mail, string>, Result<WelcomeEmail.Mail, string>)
    requires p.inbox.Ok?
  {
    var inbox := p.inbox.value;
    var account := Provisioning.CreateCalendar(inbox.emailAddress, req.firstName, p.mkcol);
    (WelcomeEmail.SendSystemLoginEmail(env.send, env.from, inbox.emailAddress, req.password, req.firstName),
     WelcomeEmail.SendAccessEmail(env.send, env.from, env.calendarBase, req.email, inbox.emailAddress,
                                  TempPassword(p.mailbox), account.username, TempPassword(p.calendar), req.firstName))
  }

  /** The sign-in letter, when it goes out, reaches the administrator's
      corporate inbox with the password that was chosen. */
  lemma {:induction false} RegistrationLetterCarriesPassword(env: Env, req: RegisterRequest, p: Provisioned)
    requires p.inbox.Ok?
    ensures var letter := RegistrationLetters(env, req, p).0;
      letter.Ok? ==> letter.value.to == p.inbox.value.emailAddress && Contains(letter.value.text, req.password)
  {
    WelcomeEmail.LoginMailCarriesCredentials(env.from, p.inbox.value.emailAddress, req.password, req.firstName);
  }

  // ------------------------------------------------------------ login

  const WrongCredentials := "Неверный email или пароль"

  datatype LoginResponse = LoginResponse(token: string, refreshToken: string, email: string,
                                         firstName: Option<string>, lastName: Option<string>, role: string)

  /** `login`: the authentication manager must accept the pair, the user
      must be stored, not deleted and active; every failure is reported as
      the same bad-credentials error, and only a success records the
      sign-in time. */
  function Login(store: Store, authenticate: (string, string) -> bool, jwt: Jwt, email: string, password: string,
                 now: int): (r: Result<(LoginResponse, Store), AuthError>)
    ensures r.Ok? <==> authenticate(email, password) && FindLive(store, email).Some? && store[email].isActive
    ensures r.Err? ==> r.error == BadCredentials(WrongCredentials)
    ensures r.Ok? ==>
      var u := store[email];
      && r.value.1 == store[email := u.(lastLoginAt := Some(now))]
      && r.value.0.email == u.email && r.value.0.role == u.role
  {
    if !authenticate(email, password) then Err(BadCredentials(WrongCredentials))
    else
      match FindLive(store, email)
      case None => Err(BadCredentials(WrongCredentials))
      case Some(u) =>
        if !u.isActive then Err(BadCredentials(WrongCredentials))
        else
          var signedIn := u.(lastLoginAt := Some(now));
          Ok((LoginResponse(jwt.access(signedIn), jwt.refresh(signedIn), u.email, u.firstName, u.lastName, u.role),
              store[email := signedIn]))
  }

  /** An authentication manager that checks the stored hash. */
  ghost predicate ChecksStore(store: Store, authenticate: (string, string) -> bool, matches: (string, string) -> bool) {
    forall e, pw :: authenticate(e, pw) <==> e in store && matches(pw, store[e].password)
  }

  /** An encoder whose hashes match the password they were made from. */
  ghost predicate Sound(encode: string -> string, matches: (string, string) -> bool) {
    forall pw :: matches(pw, encode(pw))
  }

  /** The administrator just registered signs in with the corporate
      address and the chosen password, as an administrator. */
  lemma {:induction false} AdminCanSignIn(env: Env, jwt: Jwt, req: RegisterRequest, p: Provisioned,
                       authenticate: (string, string) -> bool, matches: (string, string) -> bool, now: int)
    requires Register(map[], env, jwt, req, p).Ok?
    requires Sound(env.encode, matches)
    requires ChecksStore(Register(map[], env, jwt, req, p).value.1, authenticate, matches)
    ensures var store := Register(map[], env, jwt, req, p).value.1;
      var r := Login(store, authenticate, jwt, p.inbox.value.emailAddress, req.password, now);
      r.Ok? && r.value.0.role == AdminRole
  {
    var u := Admin(env, req, p.inbox.value, p);
    assert matches(req.password, env.encode(req.password));
    SoleUserSignsIn(u, authenticate, matches, jwt, req.password, now);
  }

  /** The only user of a store signs in with a password its hash matches. */
  lemma {:induction false} SoleUserSignsIn(u: User, authenticate: (string, string) -> bool, matches: (string, string) -> bool, jwt: Jwt,
                        password: string, now: int)
    requires u.isActive && u.deletedAt.None? && matches(password, u.password)
    requires ChecksStore(map[u.email := u], authenticate, matches)
    ensures var r := Login(map[u.email := u], authenticate, jwt, u.email, password, now);
      r.Ok? && r.value.0.role == u.role
  {
    assert authenticate(u.email, password);
  }

  // ------------------------------------------------------------ refresh

  const WrongRefresh := "Неверный refresh token"

  datatype AuthResponse = AuthResponse(token: string, refreshToken: string)

  /** `refresh`: the token must parse, be a refresh token and name a
      stored, live, active user; every failure is the same bad-credentials
      error. */
  function Refresh(store: Store, jwt: Jwt, token: string): (r: Result<AuthResponse, AuthError>)
    ensures r.Ok? <==>
      && jwt.parse(token).Ok? && jwt.parse(token).value.isRefresh
      && FindLive(store, jwt.parse(token).value.subject).Some?
      && store[jwt.parse(token).value.subject].isActive
    ensures r.Err? ==> r.error == BadCredentials(WrongRefresh)
    ensures r.Ok? ==> var u := store[jwt.parse(token).value.subject];
      r.value == AuthResponse(jwt.access(u), jwt.refresh(u))
  {
    match jwt.parse(token)
    case Err(_) => Err(BadCredentials(WrongRefresh))
    case Ok(claims) =>
      if !claims.isRefresh then Err(BadCredentials(WrongRefresh))
      else
        match FindLive(store, claims.subject)
        case None => Err(BadCredentials(WrongRefresh))
        case Some(u) => if !u.isActive then Err(BadCredentials(WrongRefresh)) else Ok(AuthResponse(jwt.access(u), jwt.refresh(u)))
  }

  /** Signing in does not change whether the user's refresh tokens are
      accepted. */
  lemma {:induction false} RefreshAfterLogin(store: Store, authenticate: (string, string) -> bool, jwt: Jwt, email: string,
                          password: string, now: int, token: string)
    requires Login(store, authenticate, jwt, email, password, now).Ok?
    ensures Refresh(Login(store, authenticate, jwt, email, password, now).value.1, jwt, token).Ok? ==
            Refresh(store, jwt, token).Ok?
  {
  }

  // ------------------------------------------------------------ passwords

  const UserMissing := "Пользователь не найден"
  const WrongPassword := "Неверный текущий пароль"

  /** `changePassword` for the signed-in `email`: the old password must
      match; then the new one's hash is stored and the user is marked as
      having changed it. Nothing else changes. */
  function ChangePassword(store: Store, encode: string -> string, matches: (string, string) -> bool,
                          email: string, oldPassword: string, newPassword: string): (r: Result<Store, AuthError>)
    ensures r.Ok? <==> FindLive(store, email).Some? && matches(oldPassword, store[email].password)
    ensures FindLive(store, email).None? ==> r == Err(NotFound(UserMissing))
    ensures FindLive(store, email).Some? && !matches(oldPassword, store[email].password) ==>
      r == Err(BadCredentials(WrongPassword))
    ensures r.Ok? ==>
      && r.value.Keys == store.Keys
      && (forall e :: e in store && e != email ==> r.value[e] == store[e])
      && r.value[email] == store[email].(password := encode(newPassword), isPasswordChanged := true)
  {
    match FindLive(store, email)
    case None => Err(NotFound(UserMissing))
    case Some(u) =>
      if !matches(oldPassword, u.password) then Err(BadCredentials(WrongPassword))
      else Ok(store[email := u.(password := encode(newPassword), isPasswordChanged := true)])
  }

  /** With a sound encoder, the new password is the one that works next:
      changing it back from the new one succeeds. */
  lemma {:induction false} ChangeThenChangeBack(store: Store, encode: string -> string, matches: (string, string) -> bool,
                             email: string, oldPassword: string, newPassword: string)
    requires Sound(encode, matches)
    requires ChangePassword(store, encode, matches, email, oldPassword, newPassword).Ok?
    ensures var changed := ChangePassword(store, encode, matches, email, oldPassword, newPassword).value;
      ChangePassword(changed, encode, matches, email, newPassword, oldPassword).Ok?
  {
    assert matches(newPassword, encode(newPassword));
  }

  const ResetPending := "Сброс пароля будет реализован после добавления UserInvitation"

  /** `resetPassword` is not implemented: it always refuses. */
  function ResetPassword(token: string, newPassword: string): (r: Result<(), AuthError>)
    ensures r == Err(Unsupported(ResetPending))
  {
    Err(Unsupported(ResetPending))
  }
}
