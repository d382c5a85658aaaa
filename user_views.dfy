/**
 * The account endpoints: registration and login. Registration runs the
 * user store's `create_user` inside a `try`; a ValidationError, from the
 * store or from the INFO log save, is logged at ERROR (without credentials)
 * and answered with 400. Login answers 401 for an unknown email or a
 * password that does not check, and otherwise issues a signed token for the
 * user's id that lasts an hour.
 */
module UserViews {
  import opened Wrappers
  import opened Common
  import opened BaseModel
  import opened Users
  import opened LogModels
  import opened Logging
  import opened Templates

  const REGISTERED_MESSAGE := "User has been registered successfully"
  const WRONG_CREDENTIALS := "wrong credentials!"

  /** The token lifetime, one hour, in seconds. */
  const TOKEN_LIFETIME: nat := 3600

  // ---- registration ----

  /** The 201 answer to a registration. */
  function Registered(u: User): Response
  {
    Response(201, JObj([("message", JStr(REGISTERED_MESSAGE)), ("created_user", Users.ToJson(u))]))
  }

  /**
   * The `except ValidationError` branch of registration: the error is logged
   * at ERROR with the request's path and method, and answered with 400; a
   * log save that raises escapes as a 500.
   */
  function ErrorReported(logger: Logger, records: seq<LogRecord>, error: string, req: Request, now: nat)
    : (r: (seq<LogRecord>, Response))
    reads logger
    ensures records <= r.0
    ensures r.1 == ErrorResponse(error) <==> logger.Emit(Error, ErrorLog(error, req), records, now).1.None?
    ensures r.1 != ErrorResponse(error) ==> r.1 == INTERNAL_ERROR && r.0 == records
  {
    var (rs, failure) := logger.Emit(Error, ErrorLog(error, req), records, now);
    (rs, if failure.None? then ErrorResponse(error) else INTERNAL_ERROR)
  }

  /**
   * What the registration view answers, given what `create_user` did: a new
   * user is logged at INFO and answered with 201; a ValidationError, from
   * the store or from that log save, is reported; anything else is a 500.
   */
  function RegisterAnswered(logger: Logger, records: seq<LogRecord>, made: DbResult<User>, req: Request, now: nat)
    : (r: (seq<LogRecord>, Response))
    reads logger
    ensures records <= r.0
    ensures r.1.status == 201 <==> made.Ok? && logger.Emit(Info, CreatedUserLog(made.value), records, now).1.None?
    ensures r.1.status == 201 ==> r == (logger.Emit(Info, CreatedUserLog(made.value), records, now).0, Registered(made.value))
    ensures made.Invalid? ==> r == ErrorReported(logger, records, made.message, req, now)
    ensures made.Unhandled? ==> r == (records, INTERNAL_ERROR)
    ensures r.1.status != 201 ==> r.1 == INTERNAL_ERROR || r.1.status == 400
  {
    match made
    case Unhandled(_) => (records, INTERNAL_ERROR)
    case Invalid(message) => ErrorReported(logger, records, message, req, now)
    case Ok(u) =>
      var (rs, failure) := logger.Emit(Info, CreatedUserLog(u), records, now);
      if failure.None? then (rs, Registered(u)) else ErrorReported(logger, rs, failure.value, req, now)
  }

  /** A body that names `cls` cannot be passed to `create_user`: a 500 with no record and no user. */
  lemma ClsKeywordIsInternalError(logger: Logger, records: seq<LogRecord>, users: seq<User>, nextId: nat,
                                  kwargs: Fields, salt: string, h: Hasher, req: Request, now: nat)
    requires "cls" in Keys(kwargs)
    ensures !CreateUserResult(users, nextId, kwargs, salt, h).Ok?
    ensures RegisterAnswered(logger, records, CreateUserResult(users, nextId, kwargs, salt, h), req, now) == (records, INTERNAL_ERROR)
  {
    var i :| 0 <= i < |kwargs| && Keys(kwargs)[i] == "cls";
    assert kwargs[i].0 in CREATE_USER_BOUND;
  }

  /** `POST /register`: create the user, then log the registration. The user stays saved even when that log save raises. */
  method Register(users: UserStore, logger: Logger, logs: LogStore, body: Fields, salt: string, h: Hasher, req: Request, now: nat)
    returns (resp: Response)
    requires users.Valid() && logs.Valid()
    modifies users, logs
    ensures users.Valid() && logs.Valid()
    ensures var made := CreateUserResult(old(users.users), old(users.nextId), body, salt, h);
      && users.users == (if made.Ok? then old(users.users) + [made.value] else old(users.users))
      && users.nextId == old(users.nextId) + (if made.Ok? then 1 else 0)
      && (logs.records, resp) == RegisterAnswered(logger, old(logs.records), made, req, now)
  {
    var made := users.CreateUser(body, salt, h);
    match made
    case Unhandled(_) =>
      resp := INTERNAL_ERROR;
    case Invalid(message) =>
      resp := ReportError(logger, logs, message, req, now);
    case Ok(u) =>
      var failure := logger.Log(Info, CreatedUserLog(u), now, logs);
      if failure.Some? {
        resp := ReportError(logger, logs, failure.value, req, now);
      } else {
        resp := Registered(u);
      }
  }

  method ReportError(logger: Logger, logs: LogStore, error: string, req: Request, now: nat) returns (resp: Response)
    requires logs.Valid()
    modifies logs
    ensures logs.Valid()
    ensures (logs.records, resp) == ErrorReported(logger, old(logs.records), error, req, now)
  {
    var failure := logger.Log(Error, ErrorLog(error, req), now, logs);
    resp := if failure.None? then ErrorResponse(error) else INTERNAL_ERROR;
  }

  /** An error longer than a log message may be cannot be reported: its ERROR record raises and the answer is 500. */
  lemma OverlongRegistrationError(logger: Logger, records: seq<LogRecord>, error: string, req: Request, now: nat)
    requires |error| > MAX_MESSAGE
    requires logger.IsEnabledFor(Error) && CountDatabase(logger.handlers) > 0
    ensures ErrorReported(logger, records, error, req, now) == (records, INTERNAL_ERROR)
  {
    LongMessageNeverStored(true, CountDatabase(logger.handlers), records, logger.name, Error.Name(), ErrorLog(error, req), now);
  }

  /**
   * With one database handler and ERROR enabled, a reported error whose
   * message fits is saved once and answered with 400.
   */
  lemma ReportedOnce(logger: Logger, records: seq<LogRecord>, error: string, req: Request, now: nat)
    requires logger.IsEnabledFor(Error) && CountDatabase(logger.handlers) == 1
    requires |ErrorLog(error, req)| <= MAX_MESSAGE
    ensures ErrorReported(logger, records, error, req, now)
         == (records + [LogRecord(|records|, logger.name, "ERROR", ErrorLog(error, req), now)], ErrorResponse(error))
  {
    EmittedOnce(records, logger.name, "ERROR", ErrorLog(error, req), now);
  }

  /**
   * Registering an email that is already saved (with a body that does not
   * also name `cls`) is answered with 400 and
   * `Email is already taken!`, and the application's logger (one database
   * handler, level INFO) saves exactly one ERROR record for it, provided the
   * request's path and method leave that message within the length limit.
   */
  lemma DuplicateRegistrationAnswered(logger: Logger, records: seq<LogRecord>, users: seq<User>, nextId: nat,
                                      kwargs: Fields, salt: string, h: Hasher, existing: User, req: Request, now: nat)
    requires "cls" !in Keys(kwargs)
    requires existing in users
    requires Lookup(kwargs, "email") == Some(Str(existing.email)) && existing.email != ""
    requires Lookup(kwargs, "password").Some? && Truthy(Lookup(kwargs, "password").value)
    requires logger.IsEnabledFor(Error) && CountDatabase(logger.handlers) == 1
    requires |req.path| + |req.verb| <= 400
    ensures RegisterAnswered(logger, records, CreateUserResult(users, nextId, kwargs, salt, h), req, now)
         == (records + [LogRecord(|records|, logger.name, "ERROR", ErrorLog(TAKEN_MESSAGE, req), now)],
             ErrorResponse(TAKEN_MESSAGE))
  {
    assert BoundParameter(kwargs, CREATE_USER_BOUND).None?;
    DuplicateEmailRefused(users, nextId, kwargs, salt, h, existing);
    ReportedOnce(logger, records, TAKEN_MESSAGE, req, now);
  }

  // ---- login ----

  /** How a login attempt ends. */
  datatype LoginResult =
    | LoggedIn(user: User)
    | WrongCredentials
      /** a password that is not a string cannot be encoded: the request fails */
    | PasswordNotText

  /** `auth.get('password', '')`. */
  function PasswordGiven(body: Fields): Value
  {
    match Lookup(body, "password")
    case None => Str("")
    case Some(v) => v
  }

  /**
   * The login check: the first saved user with the given email, if the email
   * is a string, whose stored hash accepts the given password.
   */
  function LoginResultOf(users: seq<User>, body: Fields, h: Hasher): (r: LoginResult)
    ensures r.LoggedIn? ==>
      && r.user in users && Lookup(body, "email") == Some(Str(r.user.email))
      && PasswordGiven(body).Str? && CheckPassword(r.user, PasswordGiven(body).s, h)
    ensures (forall u :: u in users ==> Lookup(body, "email") != Some(Str(u.email))) ==> r == WrongCredentials
  {
    var email := Lookup(body, "email");
    var user := if email.Some? && email.value.Str? then FindByEmail(users, email.value.s) else None;
    if user.None? then WrongCredentials
    else
      var password := PasswordGiven(body);
      if !password.Str? then PasswordNotText
      else if !CheckPassword(user.value, password.s, h) then WrongCredentials
      else LoggedIn(user.value)
  }

  /**
   * With emails unique, as the user store keeps them, a login succeeds as a
   * saved user exactly when the body gives that user's email and a password
   * its stored hash accepts.
   */
  lemma LoginIffCredentials(users: seq<User>, nextId: nat, body: Fields, h: Hasher, u: User)
    requires StoreInvariant(users, nextId)
    requires u in users
    ensures LoginResultOf(users, body, h) == LoggedIn(u) <==>
      Lookup(body, "email") == Some(Str(u.email)) && PasswordGiven(body).Str? && CheckPassword(u, PasswordGiven(body).s, h)
  {
    if Lookup(body, "email") == Some(Str(u.email)) {
      var found := FindByEmail(users, u.email);
      assert found.Some?;
      assert found.value == u;
    }
  }

  /**
   * Right after a registration, logging in with the registered email and
   * password succeeds, as the new user.
   */
  lemma RegisteredUserCanLogIn(users: seq<User>, nextId: nat, kwargs: Fields, salt: string, h: Hasher)
    requires Sound(h)
    requires CreateUserResult(users, nextId, kwargs, salt, h).Ok?
    ensures var u := CreateUserResult(users, nextId, kwargs, salt, h).value;
      LoginResultOf(users + [u], [("email", Str(u.email)), ("password", Lookup(kwargs, "password").value)], h)
        == LoggedIn(u)
  {
    var u := CreateUserResult(users, nextId, kwargs, salt, h).value;
    CreatedUserFacts(users, nextId, kwargs, salt, h);
    var found := FindByEmail(users + [u], u.email);
    assert u in users + [u];
    assert found.Some?;
    assert found.value !in users;
    assert found.value == u;
  }

  /** The answer to a successful login: `jsonify(access_token=...)`. */
  function TokenResponse(token: string): Response
  {
    Response(200, JObj([("access_token", JStr(token))]))
  }

  /**
   * `GET /login`: check the credentials, sign a token for the user's id,
   * then log the login; a log save that raises here is not caught and is a
   * 500. `sign(identity, lifetime)` stands for the token library.
   */
  method Login(users: UserStore, logger: Logger, logs: LogStore, body: Fields, h: Hasher,
               sign: (string, nat) -> string, now: nat) returns (resp: Response)
    requires logs.Valid()
    modifies logs
    ensures logs.Valid()
    ensures var r := LoginResultOf(users.users, body, h);
      && (r.WrongCredentials? ==> resp == MessageResponse(401, WRONG_CREDENTIALS) && logs.records == old(logs.records))
      && (r.PasswordNotText? ==> resp == INTERNAL_ERROR && logs.records == old(logs.records))
      && (r.LoggedIn? ==>
            var (rs, failure) := logger.Emit(Info, LoggedUserLog(r.user), old(logs.records), now);
            && logs.records == rs
            && resp == (if failure.None? then TokenResponse(sign(DecimalText(r.user.id), TOKEN_LIFETIME)) else INTERNAL_ERROR))
    ensures resp.status == 200 ==> LoginResultOf(users.users, body, h).LoggedIn?
  {
    var result := LoginResultOf(users.users, body, h);
    match result
    case WrongCredentials =>
      resp := MessageResponse(401, WRONG_CREDENTIALS);
    case PasswordNotText =>
      resp := INTERNAL_ERROR;
    case LoggedIn(u) =>
      var token := sign(DecimalText(u.id), TOKEN_LIFETIME);
      var failure := logger.Log(Info, LoggedUserLog(u), now, logs);
      resp := if failure.None? then TokenResponse(token) else INTERNAL_ERROR;
  }
}
