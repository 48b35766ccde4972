/** The token authority (apps/backend/src/modules/auth/auth.service.ts).
    A token is `base64url(JSON payload) "." base64url(HMAC-SHA256)` where
    the MAC, keyed by the token secret, covers the first segment. Login
    checks a fixed table of development users. The clock (`Date.now()`,
    milliseconds) and the secret are parameters. */
module AuthService {
  import opened Wrappers
  import opened Octets
  import opened Text
  import opened Js
  import opened Primitives
  import opened HttpTypes

  datatype DevUser = DevUser(user: AuthUser, password: string)

  const DevUsers: seq<DevUser> := [
    DevUser(AuthUser("usr_admin", "admin@controle.local", Admin, "Administrador"), "Admin@123"),
    DevUser(AuthUser("usr_editor", "editor@controle.local", Editor, "Editor"), "Editor@123"),
    DevUser(AuthUser("usr_reader", "leitor@controle.local", Leitor, "Leitor"), "Leitor@123")
  ]

  /** The outcome of a check that may also throw. */
  datatype Verdict<+T> = Rejected | Accepted(value: T) | Threw(reason: string)

  /** The first segment: the payload as base64url-encoded UTF-8 JSON. */
  function PayloadSegment(c: Crypto, payload: JsValue): string {
    c.base64UrlEncode(c.utf8Encode(c.jsonStringify(payload)))
  }

  /** The second segment: the MAC of the first, base64url-encoded. */
  function Mac(c: Crypto, secret: string, raw: string): string {
    c.base64UrlEncode(c.hmacSha256(secret, raw))
  }

  /** `sign`: the two segments joined by a dot. Because base64url has no
      dot, splitting the token on dots yields exactly the two segments. */
  function Sign(c: Crypto, secret: string, payload: JsValue): (token: string)
    requires Base64Laws(c)
    ensures Split(token, '.') == [PayloadSegment(c, payload), Mac(c, secret, PayloadSegment(c, payload))]
  {
    var raw := PayloadSegment(c, payload);
    var sig := Mac(c, secret, raw);
    Base64UrlHasNoDot(c, c.utf8Encode(c.jsonStringify(payload)));
    Base64UrlHasNoDot(c, c.hmacSha256(secret, raw));
    SplitAtFirstSeparator(raw, '.', sig);
    SplitWithoutSeparator(sig, '.');
    raw + "." + sig
  }

  /** `const [rawPayload, signature] = token.split(".")`; a missing second
      segment (`undefined`) is as falsy as an empty one and is `""`. */
  function Segments(token: string): (r: (string, string))
    ensures r.0 == Split(token, '.')[0]
    ensures |Split(token, '.')| > 1 ==> r.1 == Split(token, '.')[1]
    ensures |Split(token, '.')| == 1 ==> r.1 == ""
  {
    var parts := Split(token, '.');
    (parts[0], if |parts| > 1 then parts[1] else "")
  }

  /** A numeric `exp` in the past; `now == exp` is not yet expired, and a
      payload without a numeric `exp` never expires. */
  predicate Expired(payload: JsValue, now: int) {
    Prop(payload, "exp").Num? && now > Prop(payload, "exp").n
  }

  /** `verify`: the payload of a well-signed, unexpired token. Comparing
      signatures of different UTF-8 byte lengths throws (`timingSafeEqual`),
      as do a payload that is not JSON and a payload that is JSON `null`
      (reading `exp` of `null`). */
  function Verify(c: Crypto, secret: string, now: int, token: string): (r: Verdict<JsValue>)
    ensures Segments(token).0 == "" || Segments(token).1 == "" ==> r == Rejected
    ensures r.Accepted? ==>
      c.utf8Encode(Segments(token).1) == c.utf8Encode(Mac(c, secret, Segments(token).0))
    ensures r.Accepted? ==>
      && c.jsonParse(c.utf8Decode(c.base64UrlDecode(Segments(token).0))) == Some(r.value)
      && !Expired(r.value, now)
    ensures (Segments(token).0 != "" && Segments(token).1 != "" &&
      c.utf8Encode(Segments(token).1) != c.utf8Encode(Mac(c, secret, Segments(token).0))) ==> !r.Accepted?
  {
    var (raw, sig) := Segments(token);
    if raw == "" || sig == "" then Rejected
    else
      var given := c.utf8Encode(sig);
      var expected := c.utf8Encode(Mac(c, secret, raw));
      if |given| != |expected| then Threw("RangeError: Input buffers must have the same byte length")
      else if given != expected then Rejected
      else
        match c.jsonParse(c.utf8Decode(c.base64UrlDecode(raw)))
        case None => Threw("SyntaxError: Unexpected token in JSON")
        case Some(p) =>
          if p.Null? then Threw("TypeError: Cannot read properties of null (reading 'exp')")
          else if Expired(p, now) then Rejected
          else Accepted(p)
  }

  /** The claim-shape check of `verifyToken`: `sub`, `email`, `role` and
      `name` are strings and `role` names a role. */
  function ClaimsUser(p: JsValue): (r: Option<AuthUser>)
    ensures r.Some? <==>
      && Prop(p, "sub").Str? && Prop(p, "email").Str? && Prop(p, "name").Str?
      && Prop(p, "role").Str? && ParseRoleName(Prop(p, "role").s).Some?
    ensures r.Some? ==>
      && r.value.id == Prop(p, "sub").s && r.value.email == Prop(p, "email").s
      && r.value.name == Prop(p, "name").s && RoleName(r.value.role) == Prop(p, "role").s
  {
    var sub := Prop(p, "sub");
    var email := Prop(p, "email");
    var role := Prop(p, "role");
    var name := Prop(p, "name");
    if !(sub.Str? && email.Str? && role.Str? && name.Str?) then None
    else
      match ParseRoleName(role.s)
      case None => None
      case Some(r) => Some(AuthUser(sub.s, email.s, r, name.s))
  }

  /** The payload a login signs. */
  function Claims(u: AuthUser, exp: int): (p: JsValue)
    ensures IsFlatObject(p)
  {
    Obj(map["sub" := Str(u.id), "email" := Str(u.email), "role" := Str(RoleName(u.role)),
            "name" := Str(u.name), "exp" := Num(exp)])
  }

  /** The claims of a user read back as that user. */
  lemma ClaimsRoundTrip(u: AuthUser, exp: int)
    ensures ClaimsUser(Claims(u, exp)) == Some(u)
    ensures Truthy(Claims(u, exp))
    ensures Expired(Claims(u, exp), exp + 1) && !Expired(Claims(u, exp), exp)
  {
    RoleNameRoundTrip(u.role, RoleName(u.role));
  }

  /** `verifyToken`: the user a valid token names. */
  function VerifyToken(c: Crypto, secret: string, now: int, token: string): (r: Verdict<AuthUser>)
    ensures Verify(c, secret, now, token).Rejected? ==> r.Rejected?
    ensures Verify(c, secret, now, token).Threw? ==> r == Threw(Verify(c, secret, now, token).reason)
    ensures r.Accepted? <==>
      Verify(c, secret, now, token).Accepted? && ClaimsUser(Verify(c, secret, now, token).value).Some?
    ensures r.Accepted? ==> Some(r.value) == ClaimsUser(Verify(c, secret, now, token).value)
  {
    match Verify(c, secret, now, token)
    case Rejected => Rejected
    case Threw(e) => Threw(e)
    case Accepted(p) =>
      if !Truthy(p) then Rejected
      else
        match ClaimsUser(p)
        case None => Rejected
        case Some(u) => Accepted(u)
  }

  /** `devUsers.find(u => u.email === email)`. */
  function FindByEmail(users: seq<DevUser>, email: string): (r: Option<DevUser>)
    ensures r.Some? ==> r.value in users && r.value.user.email == email
    ensures r.None? ==> forall i :: 0 <= i < |users| ==> users[i].user.email != email
    ensures r.Some? ==> forall i :: (0 <= i < |users| && users[i].user.email == email &&
      (forall j :: 0 <= j < i ==> users[j].user.email != email)) ==> users[i] == r.value
  {
    if |users| == 0 then None
    else if users[0].user.email == email then Some(users[0])
    else FindByEmail(users[1..], email)
  }

  datatype LoginResult = LoginResult(accessToken: string, expiresIn: int, user: AuthUser)

  /** No two development users share an email. */
  lemma DevEmailsDistinct()
    ensures forall i, j :: 0 <= i < j < |DevUsers| ==> DevUsers[i].user.email != DevUsers[j].user.email
  {
  }

  /** `login`: exact email and exact password of a table user; the token
      expires `ttl` seconds after `now` (in milliseconds). */
  function Login(c: Crypto, secret: string, ttl: int, now: int, email: string, password: string): (r: Option<LoginResult>)
    requires Base64Laws(c)
    ensures r.Some? <==> exists i :: 0 <= i < |DevUsers| && DevUsers[i].user.email == email && DevUsers[i].password == password
    ensures r.Some? ==> exists i :: 0 <= i < |DevUsers| && DevUsers[i].user == r.value.user && DevUsers[i].password == password
    ensures r.Some? ==> r.value.user.email == email && r.value.expiresIn == ttl
    ensures r.Some? ==> r.value.accessToken == Sign(c, secret, Claims(r.value.user, now + ttl * 1000))
  {
    DevEmailsDistinct();
    match FindByEmail(DevUsers, email)
    case None => None
    case Some(u) =>
      if u.password != password then None
      else
        var exp := now + ttl * 1000;
        Some(LoginResult(Sign(c, secret, Claims(u.user, exp)), ttl, u.user))
  }
  /** Each table user logs in with their own email and password. */
  lemma LoginTableUser(c: Crypto, secret: string, ttl: int, now: int, i: nat)
    requires Base64Laws(c)
    requires i < |DevUsers|
    ensures Login(c, secret, ttl, now, DevUsers[i].user.email, DevUsers[i].password).Some?
    ensures Login(c, secret, ttl, now, DevUsers[i].user.email, DevUsers[i].password).value.user == DevUsers[i].user
  {
    var r := Login(c, secret, ttl, now, DevUsers[i].user.email, DevUsers[i].password);
    assert r.Some?;
    var j :| 0 <= j < |DevUsers| && DevUsers[j].user == r.value.user && DevUsers[j].password == DevUsers[i].password;
    DevEmailsDistinct();
    assert j == i;
  }


  /** A token signed over a flat payload verifies to that payload until it
      expires. */
  lemma VerifySigned(c: Crypto, secret: string, now: int, payload: JsValue)
    requires Lawful(c) && IsFlatObject(payload)
    ensures !Expired(payload, now) ==> Verify(c, secret, now, Sign(c, secret, payload)) == Accepted(payload)
    ensures Expired(payload, now) ==> Verify(c, secret, now, Sign(c, secret, payload)) == Rejected
  {
    var json := c.jsonStringify(payload);
    var raw := PayloadSegment(c, payload);
    var bytes := c.utf8Encode(json);
    assert |json| > 0;
    assert |bytes| > 0;
    assert |raw| > 0;
    var mac := c.hmacSha256(secret, raw);
    assert |mac| == 32;
    assert |Mac(c, secret, raw)| > 0;
    assert Segments(Sign(c, secret, payload)) == (raw, Mac(c, secret, raw));
    assert c.base64UrlDecode(raw) == bytes;
    assert c.utf8Decode(bytes) == json;
    assert c.jsonParse(json) == Some(payload);
  }

  /** Round trip: the token of a successful login names the logged-in user
      at every instant up to and including its expiry, and nobody after. */
  lemma LoginTokenVerifies(c: Crypto, secret: string, ttl: int, now: int, later: int, email: string, password: string)
    requires Lawful(c)
    requires Login(c, secret, ttl, now, email, password).Some?
    ensures later <= now + ttl * 1000 ==>
      VerifyToken(c, secret, later, Login(c, secret, ttl, now, email, password).value.accessToken)
        == Accepted(Login(c, secret, ttl, now, email, password).value.user)
    ensures later > now + ttl * 1000 ==>
      VerifyToken(c, secret, later, Login(c, secret, ttl, now, email, password).value.accessToken) == Rejected
  {
    var res := Login(c, secret, ttl, now, email, password).value;
    var claims := Claims(res.user, now + ttl * 1000);
    ClaimsRoundTrip(res.user, now + ttl * 1000);
    VerifySigned(c, secret, later, claims);
  }
}
