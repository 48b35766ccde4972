/** The access gate (apps/backend/src/core/http/auth.middleware.ts):
    `requireAuth` turns the Authorization header into a verified user,
    `requireRole` admits the listed roles and audits every refusal. */
module AuthMiddleware {
  import opened Wrappers
  import opened Text
  import opened Js
  import opened Primitives
  import opened HttpTypes
  import opened Errors
  import opened Audit
  import opened Routing
  import opened AuthService

  const InvalidToken: string := "Token invalido ou expirado"

  /** The header with its first "Bearer " removed, then trimmed; an absent
      header gives the empty string. */
  function ExtractToken(header: Option<string>): (t: string)
    ensures header.None? ==> t == ""
    ensures header.Some? ==> t == Trim(ReplaceFirst(header.value, "Bearer ", ""))
  {
    match header
    case None => ""
    case Some(h) => Trim(ReplaceFirst(h, "Bearer ", ""))
  }

  /** A bearer header carries its token back out unchanged, provided the
      token has no surrounding whitespace to lose. */
  lemma ExtractBearer(token: string)
    requires NoWhitespace(token)
    ensures ExtractToken(Some("Bearer " + token)) == token
  {
    ReplaceLeadingPattern("Bearer ", token);
    TrimNoWhitespace(token);
  }

  /** `requireAuth` as evidently intended: an empty token is 401 "Nao
      autenticado", a rejected one 401 "Token invalido ou expirado", a throw
      in verification an internal error, and a verified user passes. */
  function RequireAuth(c: Crypto, secret: string, now: int, header: Option<string>): (r: Result<AuthUser, Failure>)
    ensures ExtractToken(header) == "" ==> r == Failure(Http(Unauthorized(NotAuthenticated)))
    ensures r.Success? <==>
      ExtractToken(header) != "" && VerifyToken(c, secret, now, ExtractToken(header)).Accepted?
    ensures r.Success? ==> VerifyToken(c, secret, now, ExtractToken(header)) == Accepted(r.value)
    ensures ExtractToken(header) != "" && VerifyToken(c, secret, now, ExtractToken(header)).Rejected? ==>
      r == Failure(Http(Unauthorized(InvalidToken)))
    ensures r.Failure? && r.error.Internal? ==> VerifyToken(c, secret, now, ExtractToken(header)).Threw?
  {
    var token := ExtractToken(header);
    if token == "" then Failure(Http(Unauthorized(NotAuthenticated)))
    else
      match VerifyToken(c, secret, now, token)
      case Rejected => Failure(Http(Unauthorized(InvalidToken)))
      case Threw(e) => Failure(Internal(e))
      case Accepted(u) => Success(u)
  }

  /** `requireAuth` as written: it calls `.then` on the synchronous result
      of `verifyToken`, which is a user object or `null`, neither of which
      has a `then` method, so every non-empty token ends in a `TypeError`
      (or in the exception `verifyToken` itself threw). */
  function RequireAuthAsWritten(c: Crypto, secret: string, now: int, header: Option<string>): (r: Result<AuthUser, Failure>)
    ensures ExtractToken(header) == "" ==> r == Failure(Http(Unauthorized(NotAuthenticated)))
    ensures ExtractToken(header) != "" ==> r.Failure? && r.error.Internal?
  {
    var token := ExtractToken(header);
    if token == "" then Failure(Http(Unauthorized(NotAuthenticated)))
    else
      match VerifyToken(c, secret, now, token)
      case Threw(e) => Failure(Internal(e))
      case _ => Failure(Internal("TypeError: authService.verifyToken(...).then is not a function"))
  }

  /** A signed token is base64url segments around a dot: no whitespace. */
  lemma SignedTokenHasNoWhitespace(c: Crypto, secret: string, payload: JsValue)
    requires Base64Laws(c)
    ensures NoWhitespace(Sign(c, secret, payload))
  {
    var raw := PayloadSegment(c, payload);
    var sig := Mac(c, secret, raw);
    assert AllBase64Url(raw) && AllBase64Url(sig);
    var t := raw + "." + sig;
    assert Sign(c, secret, payload) == t;
    forall i | 0 <= i < |t|
      ensures !IsWhitespace(t[i])
    {
      if i < |raw| {
        assert t[i] == raw[i];
      } else if i > |raw| {
        assert t[i] == sig[i - |raw| - 1];
      }
    }
  }

  /** The bearer header of a fresh login admits the logged-in user until
      the token expires. The same header, as the middleware is written,
      ends in a 500. */
  lemma BearerLoginRoundTrip(c: Crypto, secret: string, ttl: int, now: int, later: int, email: string, password: string)
    requires Lawful(c)
    requires Login(c, secret, ttl, now, email, password).Some?
    requires later <= now + ttl * 1000
    ensures RequireAuth(c, secret, later, Some("Bearer " + Login(c, secret, ttl, now, email, password).value.accessToken))
      == Success(Login(c, secret, ttl, now, email, password).value.user)
    ensures Respond(RequireAuthAsWritten(c, secret, later,
      Some("Bearer " + Login(c, secret, ttl, now, email, password).value.accessToken)).error).status == 500
  {
    var res := Login(c, secret, ttl, now, email, password).value;
    var claims := Claims(res.user, now + ttl * 1000);
    SignedTokenHasNoWhitespace(c, secret, claims);
    ExtractBearer(res.accessToken);
    LoginTokenVerifies(c, secret, ttl, now, later, email, password);
    assert res.accessToken != "" by {
      assert Split(res.accessToken, '.')[0] == PayloadSegment(c, claims);
      assert |c.utf8Encode(c.jsonStringify(claims))| > 0;
      assert |PayloadSegment(c, claims)| > 0;
    }
  }

  /** The role lists the routers pass to `requireRole`: writers (admin or
      editor) and admins only. */
  const Writers: seq<Role> := [Admin, Editor]
  const Admins: seq<Role> := [Admin]

  /** What `requireRole` decided: let the request through, or throw
      `error` after recording `events`. */
  datatype Gate = Pass | Deny(error: HttpError, events: seq<AuditInput>)

  /** The `access_denied` event of a refused request. */
  function DeniedEvent(allowed: seq<Role>, u: AuthUser, path: string): AuditInput {
    AuditInput(Some(u.id), Some(u.email), AccessDenied, path, Undefined, Some(DeniedContext(allowed, u.role)))
  }

  /** `requireRole(allowed)`: no user is 401 and is not audited; a role
      outside `allowed` is 403 after exactly one `access_denied` event; an
      allowed role passes silently. */
  function RequireRole(allowed: seq<Role>, user: Option<AuthUser>, path: string): (g: Gate)
    ensures user.None? ==> g == Deny(Unauthorized(NotAuthenticated), [])
    ensures g.Pass? <==> user.Some? && user.value.role in allowed
    ensures user.Some? && user.value.role !in allowed ==>
      g == Deny(Forbidden(NoPermission), [DeniedEvent(allowed, user.value, path)])
  {
    match user
    case None => Deny(Unauthorized(NotAuthenticated), [])
    case Some(u) =>
      if u.role in allowed then Pass
      else Deny(Forbidden(NoPermission), [DeniedEvent(allowed, u, path)])
  }

  /** A refusal from the role gate, as a handler outcome: state unchanged,
      the gate's events recorded, the gate's error thrown. */
  function Refuse<S, B>(state: S, g: Gate): (o: Outcome<S, B>)
    requires g.Deny?
    ensures o.state == state && o.events == g.events && o.reply == Fail(Http(g.error))
  {
    Outcome(state, g.events, Fail(Http(g.error)))
  }

  /** The gate refuses with 401 only when there is no user and with 403
      only when the role is not admitted, and audits only the 403. */
  lemma RoleGateStatuses(allowed: seq<Role>, user: Option<AuthUser>, path: string)
    ensures RequireRole(allowed, user, path).Deny? && RequireRole(allowed, user, path).error.statusCode == 401
      <==> user.None?
    ensures RequireRole(allowed, user, path).Deny? && RequireRole(allowed, user, path).error.statusCode == 403
      <==> user.Some? && user.value.role !in allowed
    ensures RequireRole(allowed, user, path).Deny? ==>
      (|RequireRole(allowed, user, path).events| == 1 <==> user.Some?)
  {
  }
}
