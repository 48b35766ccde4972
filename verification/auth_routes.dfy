/** The login and `/me` routes (apps/backend/src/modules/auth/auth.routes.ts).
    Neither touches a store, so their state is `()`. */
module AuthRoutes {
  import opened Wrappers
  import opened Text
  import opened Js
  import opened Primitives
  import opened HttpTypes
  import opened Errors
  import opened Audit
  import opened Routing
  import opened AuthService
  import opened AuthMiddleware

  const InvalidCredentials: HttpError := HttpError(401, "Credenciais invalidas", "INVALID_CREDENTIALS")

  /** The email as the route normalises it: trimmed and lower-cased. The
      password is taken verbatim. */
  function LoginEmail(req: Request): string {
    ToLower(TrimmedField(req, "email"))
  }

  function LoginPassword(req: Request): string {
    StringOrEmpty(Field(req, "password"))
  }

  function FailedEvent(email: string): AuditInput {
    AuditInput(None, Some(email), LoginFailed, "auth.login", Undefined, None)
  }

  function SucceededEvent(u: AuthUser): AuditInput {
    AuditInput(Some(u.id), Some(u.email), LoginSuccess, "auth.login", Undefined, None)
  }

  /** `POST /login`. */
  function LoginRoute(c: Crypto, secret: string, ttl: int, now: int, req: Request): (o: Outcome<(), LoginResult>)
    requires Base64Laws(c)
    ensures LoginEmail(req) == "" || LoginPassword(req) == "" ==>
      o == Reject((), Validation("Email e senha sao obrigatorios"))
    ensures o.reply.Ok? <==> (LoginEmail(req) != "" && LoginPassword(req) != "" &&
      exists i :: 0 <= i < |DevUsers| && DevUsers[i].user.email == LoginEmail(req) && DevUsers[i].password == LoginPassword(req))
    ensures o.reply.Ok? ==> o.reply.status == 200 && o.events == [SucceededEvent(o.reply.body.user)]
    ensures o.reply.Ok? ==> o.reply.body.user.email == LoginEmail(req)
    ensures o.reply.Ok? ==> Login(c, secret, ttl, now, LoginEmail(req), LoginPassword(req)) == Some(o.reply.body)
    ensures LoginEmail(req) != "" && LoginPassword(req) != "" && !o.reply.Ok? ==>
      o == Outcome((), [FailedEvent(LoginEmail(req))], Fail(Http(InvalidCredentials)))
  {
    var email := LoginEmail(req);
    var password := LoginPassword(req);
    if email == "" || password == "" then Reject((), Validation("Email e senha sao obrigatorios"))
    else
      match Login(c, secret, ttl, now, email, password)
      case None => Outcome((), [FailedEvent(email)], Fail(Http(InvalidCredentials)))
      case Some(res) => Outcome((), [SucceededEvent(res.user)], Ok(200, res))
  }

  /** A login body for the given email and password. */
  function LoginRequest(email: string, password: string): Request {
    Request("/login", map[], map[], Obj(map["email" := Str(email), "password" := Str(password)]))
  }

  /** Email matching ignores case and surrounding whitespace, because the
      table emails are lower-case: any spelling that normalises to a table
      email logs in with that user's password. */
  lemma LoginIgnoresEmailCase(c: Crypto, secret: string, ttl: int, now: int, email: string, i: nat)
    requires Base64Laws(c)
    requires i < |DevUsers|
    requires ToLower(Trim(email)) == DevUsers[i].user.email
    ensures LoginRoute(c, secret, ttl, now, LoginRequest(email, DevUsers[i].password)).reply.Ok?
    ensures LoginRoute(c, secret, ttl, now, LoginRequest(email, DevUsers[i].password)).reply.body.user
      == DevUsers[i].user
  {
    var req := LoginRequest(email, DevUsers[i].password);
    LoginRequestFields(email, DevUsers[i].password);
    LoginTableUser(c, secret, ttl, now, i);
    assert LoginRoute(c, secret, ttl, now, req).reply.Ok?;
  }

  /** The password is not trimmed: the admin password with a trailing
      space is refused and audited as a failure. */
  lemma LoginPasswordVerbatim(c: Crypto, secret: string, ttl: int, now: int)
    requires Base64Laws(c)
    ensures LoginRoute(c, secret, ttl, now, LoginRequest("admin@controle.local", "Admin@123 ")).events
      == [FailedEvent("admin@controle.local")]
    ensures LoginRoute(c, secret, ttl, now, LoginRequest("admin@controle.local", "Admin@123 ")).reply
      == Fail(Http(InvalidCredentials))
  {
    var req := LoginRequest("admin@controle.local", "Admin@123 ");
    AdminEmailIsNormal();
    LoginRequestFields("admin@controle.local", "Admin@123 ");
    AdminPasswordIsExact();
  }

  lemma AdminPasswordIsExact()
    ensures forall i :: 0 <= i < |DevUsers| && DevUsers[i].user.email == "admin@controle.local" ==>
      DevUsers[i].password != "Admin@123 "
  {
  }

  /** The normalised fields of a login body. */
  lemma LoginRequestFields(email: string, password: string)
    ensures LoginEmail(LoginRequest(email, password)) == ToLower(Trim(email))
    ensures LoginPassword(LoginRequest(email, password)) == password
  {
  }

  lemma AdminEmailIsNormal()
    ensures ToLower(Trim("admin@controle.local")) == "admin@controle.local"
  {
    var s := "admin@controle.local";
    assert NoWhitespace(s);
    TrimNoWhitespace(s);
    assert HasNoUpper(s);
    ToLowerFixesLower(s);
  }

  /** `GET /me`: the user `requireAuth` attached, or its error. */
  function MeRoute(c: Crypto, secret: string, now: int, header: Option<string>): (o: Outcome<(), AuthUser>)
    ensures o.events == []
    ensures o.reply.Ok? <==> RequireAuth(c, secret, now, header).Success?
    ensures o.reply.Ok? ==> o.reply == Ok(200, RequireAuth(c, secret, now, header).value)
  {
    match RequireAuth(c, secret, now, header)
    case Failure(f) => Outcome((), [], Fail(f))
    case Success(u) => Outcome((), [], Ok(200, u))
  }

  /** After logging in, `/me` with the bearer token answers the user. */
  lemma MeAfterLogin(c: Crypto, secret: string, ttl: int, now: int, later: int, email: string, password: string)
    requires Lawful(c)
    requires Login(c, secret, ttl, now, email, password).Some?
    requires later <= now + ttl * 1000
    ensures MeRoute(c, secret, later, Some("Bearer " + Login(c, secret, ttl, now, email, password).value.accessToken)).reply
      == Ok(200, Login(c, secret, ttl, now, email, password).value.user)
  {
    BearerLoginRoundTrip(c, secret, ttl, now, later, email, password);
  }
}
